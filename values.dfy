/**
 * The data model of the scalar autograd engine (grad_eng.py, class Value).
 *
 * A Python `Value` object is a node of the computation graph. Here all nodes
 * of one graph live in an arena (a sequence); a node is named by its handle,
 * its index in the arena. Each node records its forward value and an operation
 * tag that names its operands by handle and caches whatever the backward step
 * needs. Operands always have smaller handles than the node that uses them, so
 * the graph is acyclic by construction.
 */
module Values {

  /** Index of a node in the arena; stands for a reference to a Python Value. */
  type Handle = nat

  /**
   * Which operation produced a node, with its operands. The tag replaces the
   * `_backward` closure of the source: the closure's captured state is exactly
   * these fields (plus the node's own forward value, which for `Tanh` is the
   * cached result `t`, and for a softmax output is its probability).
   */
  datatype Op =
    | Leaf
    | Add(lhs: Handle, rhs: Handle)
    | Mul(lhs: Handle, rhs: Handle)
    | Pow(base: Handle, exponent: int)
    | Relu(arg: Handle)
    | Tanh(arg: Handle)
      /** output number `index` of one softmax call over `inputs`; the call's
          outputs occupy handles first, first + 1, ..., first + |inputs| - 1 */
    | Softmax(inputs: seq<Handle>, first: Handle, index: nat)

  datatype Node = Node(data: real, op: Op)

  /** The error conditions the engine raises. */
  datatype Error =
    | InvalidOperand   // `**` with a Value as exponent (the assertion in __pow__)
    | DivisionByZero   // zero raised to a negative power
    | EmptyInput       // softmax of an empty list (max() of nothing)

  datatype Result<T> = Ok(value: T) | Err(error: Error)

  datatype Option<T> = None | Some(value: T)

  /** An operand as Python code passes it: another node or a plain number. */
  datatype Operand<T> = Ref(h: Handle) | Num(c: T)

  /** x ** n for an integer exponent; undefined (ZeroDivisionError) for 0 ** negative. */
  function Power(x: real, n: int): real
    requires x != 0.0 || n >= 0
    decreases if n < 0 then -n else n
  {
    if n == 0 then 1.0
    else if n > 0 then x * Power(x, n - 1)
    else Power(x, n + 1) / x
  }

  /** d(x ** e)/dx = e * x ** (e - 1), as the backward step of `**` computes it. */
  function PowSlope(x: real, e: int): real
    requires x != 0.0 || e >= 1
  {
    e as real * Power(x, e - 1)
  }

  /** Going one exponent up multiplies by the base, for every integer exponent. */
  lemma {:induction false} PowerStep(x: real, n: int)
    requires x != 0.0
    ensures Power(x, n) == x * Power(x, n - 1)
    decreases if n < 0 then -n else n
  {
    if n > 0 {
    } else if n == 0 {
      assert Power(x, -1) == Power(x, 0) / x;
    } else {
      assert Power(x, n - 1) == Power(x, n) / x;
    }
  }

  /** max(0, x), as Python's max returns its first argument on a tie. */
  function Max0(x: real): (r: real)
    ensures r >= 0.0 && r >= x && (r == 0.0 || r == x)
  {
    if 0.0 < x then x else 0.0
  }

  /** The `_children` tuple a constructor passes to `Value.__init__`. */
  function Operands(op: Op): seq<Handle>
  {
    match op
    case Leaf => []
    case Add(a, b) => [a, b]
    case Mul(a, b) => [a, b]
    case Pow(a, _) => [a]
    case Relu(a) => [a]
    case Tanh(a) => [a]
    case Softmax(ins, _, k) => if k < |ins| then [ins[k]] else []
  }

  predicate NoDup(s: seq<Handle>)
  {
    forall i, j :: 0 <= i < j < |s| ==> s[i] != s[j]
  }

  /**
   * `_prev = set(_children)`: the operands without repetition, in operand
   * order (the order in which the traversal visits them).
   */
  function Parents(op: Op): (ps: seq<Handle>)
    ensures NoDup(ps)
    ensures forall u :: u in ps <==> u in Operands(op)
  {
    match op
    case Add(a, b) => if a == b then [a] else [a, b]
    case Mul(a, b) => if a == b then [a] else [a, b]
    case _ => Operands(op)
  }

  /** Sum of the first n of xs. */
  function Total(xs: seq<real>, n: nat): real
    requires n <= |xs|
  {
    if n == 0 then 0.0 else Total(xs, n - 1) + xs[n - 1]
  }

  /** Forward values of the n outputs of a softmax call that start at handle first. */
  function OutData(nodes: seq<Node>, first: Handle, n: nat): (s: seq<real>)
    requires first + n <= |nodes|
    ensures |s| == n && forall i :: 0 <= i < n ==> s[i] == nodes[first + i].data
  {
    seq(n, i requires 0 <= i < n => nodes[first + i].data)
  }

  /**
   * The outputs of a softmax call sit at first .. first+|ins|-1, all carry
   * the same tag, and their values are probabilities that sum to 1.
   */
  ghost predicate SoftmaxGroupOk(nodes: seq<Node>, ins: seq<Handle>, first: Handle)
  {
    && first + |ins| <= |nodes|
    && (forall j :: 0 <= j < |ins| ==> ins[j] < first)
    && (forall j :: 0 <= j < |ins| ==> nodes[first + j].op == Softmax(ins, first, j))
    && Total(OutData(nodes, first, |ins|), |ins|) == 1.0
  }

  /**
   * Node h is in order: its operands are older nodes, and its forward value is
   * the operation's formula applied to theirs (tanh and softmax values are
   * transcendental and are taken as given).
   */
  ghost predicate NodeOk(nodes: seq<Node>, h: nat)
    requires h < |nodes|
  {
    var n := nodes[h];
    match n.op
    case Leaf => true
    case Add(a, b) => a < h && b < h && n.data == nodes[a].data + nodes[b].data
    case Mul(a, b) => a < h && b < h && n.data == nodes[a].data * nodes[b].data
    case Pow(a, e) => a < h && (nodes[a].data != 0.0 || e >= 0) && n.data == Power(nodes[a].data, e)
    case Relu(a) => a < h && n.data == Max0(nodes[a].data)
    case Tanh(a) => a < h
    case Softmax(ins, first, k) => k < |ins| && first + k == h && SoftmaxGroupOk(nodes, ins, first)
  }

  ghost predicate WellFormed(nodes: seq<Node>)
  {
    forall h :: 0 <= h < |nodes| ==> NodeOk(nodes, h)
  }

  /** In a well-formed arena every parent of a node is an older node. */
  lemma ParentsOlder(nodes: seq<Node>, h: nat)
    requires WellFormed(nodes) && h < |nodes|
    ensures forall k :: 0 <= k < |Parents(nodes[h].op)| ==> Parents(nodes[h].op)[k] < h
  {
    assert NodeOk(nodes, h);
    var ps := Parents(nodes[h].op);
    forall k | 0 <= k < |ps| ensures ps[k] < h {
      assert ps[k] in Operands(nodes[h].op);
    }
  }

  /** Every parent of a node is an older node: the graph has no cycle. */
  ghost predicate Acyclic(nodes: seq<Node>)
  {
    forall h, k :: 0 <= h < |nodes| && 0 <= k < |Parents(nodes[h].op)| ==> Parents(nodes[h].op)[k] < h
  }

  lemma WellFormedAcyclic(nodes: seq<Node>)
    requires WellFormed(nodes)
    ensures Acyclic(nodes)
  {
    forall h | 0 <= h < |nodes| {
      ParentsOlder(nodes, h);
    }
  }

  /** A node in order stays in order when more nodes are appended after it. */
  lemma NodeOkExtend(nodes: seq<Node>, more: seq<Node>, h: nat)
    requires h < |nodes| && NodeOk(nodes, h)
    ensures NodeOk(nodes + more, h)
  {
    var ext := nodes + more;
    assert ext[h] == nodes[h];
    match nodes[h].op
    case Softmax(ins, first, k) =>
      forall j | 0 <= j < |ins| ensures ext[first + j].op == Softmax(ins, first, j) {
        assert nodes[first + j].op == Softmax(ins, first, j);
      }
      assert OutData(ext, first, |ins|) == OutData(nodes, first, |ins|);
    case _ =>
  }

  /** Appending a node that is in order keeps the whole arena in order. */
  lemma AppendWellFormed(nodes: seq<Node>, x: Node)
    requires WellFormed(nodes)
    requires NodeOk(nodes + [x], |nodes|)
    ensures WellFormed(nodes + [x])
  {
    forall h | 0 <= h < |nodes| ensures NodeOk(nodes + [x], h) {
      NodeOkExtend(nodes, [x], h);
    }
  }

  /** The nodes one softmax call appends: output k has probability probs[k]. */
  function SoftmaxGroup(ins: seq<Handle>, first: Handle, probs: seq<real>): (group: seq<Node>)
    requires |probs| == |ins|
    ensures |group| == |ins|
    ensures forall k :: 0 <= k < |ins| ==> group[k] == Node(probs[k], Softmax(ins, first, k))
  {
    seq(|ins|, k requires 0 <= k < |ins| => Node(probs[k], Softmax(ins, first, k)))
  }

  /**
   * Appending the outputs of a softmax over existing nodes keeps the arena in
   * order, provided the probabilities sum to 1.
   */
  lemma AppendSoftmaxWellFormed(nodes: seq<Node>, ins: seq<Handle>, probs: seq<real>)
    requires WellFormed(nodes) && |probs| == |ins| && ins != []
    requires forall j :: 0 <= j < |ins| ==> ins[j] < |nodes|
    requires Total(probs, |probs|) == 1.0
    ensures WellFormed(nodes + SoftmaxGroup(ins, |nodes|, probs))
  {
    var first := |nodes|;
    var ext := nodes + SoftmaxGroup(ins, first, probs);
    assert OutData(ext, first, |ins|) == probs;
    assert SoftmaxGroupOk(ext, ins, first);
    forall h | 0 <= h < |ext| ensures NodeOk(ext, h) {
      if h < first {
        NodeOkExtend(nodes, SoftmaxGroup(ins, first, probs), h);
      } else {
        assert ext[h] == Node(probs[h - first], Softmax(ins, first, h - first));
      }
    }
  }

  /** Dividing every term by d divides the sum by d. */
  lemma {:induction false} TotalScaled(xs: seq<real>, ys: seq<real>, d: real, n: nat)
    requires d != 0.0 && n <= |xs| && n <= |ys|
    requires forall k :: 0 <= k < n ==> ys[k] == xs[k] / d
    ensures Total(ys, n) == Total(xs, n) / d
  {
    if n > 0 {
      TotalScaled(xs, ys, d, n - 1);
      assert Total(xs, n) / d == Total(xs, n - 1) / d + xs[n - 1] / d;
    }
  }

  /** The sum of the first n terms only depends on those terms. */
  lemma {:induction false} TotalPrefix(xs: seq<real>, ys: seq<real>, n: nat)
    requires n <= |xs| && n <= |ys| && forall k :: 0 <= k < n ==> xs[k] == ys[k]
    ensures Total(xs, n) == Total(ys, n)
  {
    if n > 0 {
      TotalPrefix(xs, ys, n - 1);
    }
  }

  /** A sum of positive terms is positive. */
  lemma {:induction false} TotalPositive(xs: seq<real>, n: nat)
    requires 0 < n <= |xs| && forall k :: 0 <= k < |xs| ==> xs[k] > 0.0
    ensures Total(xs, n) > 0.0
  {
    if n > 1 {
      TotalPositive(xs, n - 1);
    }
  }
}

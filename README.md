# A verified model of a scalar reverse-mode autograd engine

`grad_eng.py` defines one class, `Value`. Each `Value` is a scalar node of a
computation graph. It holds a forward value `data`, a gradient `grad`, its
parents `_prev` and a `_backward` closure. The operators `+`, `*` and `**`
and the activations `relu`, `tanh` and `softmax` each create new nodes.
`backward()` sorts the graph reachable from a node with a depth-first search
and seeds that node's gradient with 1. It then runs every node's backward
step in reverse topological order, so every gradient is accumulated by the
chain rule.

The model keeps that structure.

- `values.dfy` (module `Values`) is the data model.
  - All `Value` objects of one computation live in an arena, and a node is
    named by its index.
  - Each node stores its forward value and an `Op` tag. The tag holds the
    operands and anything the closure captured.
  - The predicate `WellFormed` states what the constructors guarantee.
    Operands are older nodes, so the graph is acyclic. Forward values follow
    each operation's formula. The outputs of one softmax call are
    consecutive and sum to 1.
- `chain.dfy` (module `Chain`) gives the backward step of each operation as
  a function `Step` on the gradient vector. `None` stands for the
  `ZeroDivisionError` a step can raise. The module also proves that every
  single-output step is the chain rule.
- `softmax_grad.dfy` (module `SoftmaxGrad`) handles the doubly nested loop of
  softmax's shared backward step. It proves that loop equal to the closed
  form `s[j] * (og[j] - sum_i og[i] * s[i])`, and that what it hands its
  inputs sums to zero.
- `topo.dfy` (module `Topo`) specifies `build_topo` as a function `Dfs`. It
  proves that the order holds exactly the nodes reachable from the root,
  each once, with parents first and the root last.
- `backprop.dfy` (module `Backprop`) specifies `backward()` as `BackwardSpec`
  and proves several properties of it:
  - it fails exactly on a failing power step;
  - it sets the root's gradient to 1;
  - on graphs without softmax, it satisfies the adjoint equations of reverse
    mode.
- `engine.dfy` (module `Engine`) is the program as it runs: a class `Graph`
  whose `nodes` and `grad` fields the operators and `Backward` update in
  place.
  - Every operator and step method is proved against the functions above.
  - `Backward` runs the recursive `BuildTopo` and then the reverse loop. It
    is proved equal to `BackwardSpec`.
- `intended.dfy` (module `Intended`) gives the softmax wiring that the code
  evidently means (see Findings).
- `examples.dfy` (module `Examples`) works through small graphs. It covers
  fan-out accumulation, c = a * b + a, tanh at zero, softmax of equal
  inputs, and the two softmax findings both as written and corrected.

Where Python leaves something open, the model picks one behaviour.

- Python's set iteration order over `_prev` is unspecified. The model visits
  parents in operand order.
- Every result that depends on this is stated for that order.

## Model

| member | source | states |
|---|---|---|
| Values.Parents | grad_eng.py:14-21 | `_prev = set(_children)`: the parents hold exactly the operands, with no repetition |
| Values.Max0 | grad_eng.py:67 | relu's forward value is non-negative, at least x, and is either 0 or x |
| Values.WellFormedAcyclic | grad_eng.py:27-118 | in any graph the constructors build, every parent is older than its child, so the graph has no cycle |
| Values.AppendSoftmaxWellFormed | grad_eng.py:102-105 | appending the outputs of a softmax over existing nodes, with probabilities that sum to 1, keeps the graph well formed |
| Values.TotalScaled | grad_eng.py:100-104 | dividing every exponential by their sum divides the sum by it, so the softmax outputs sum to 1 |
| Values.PowerStep | grad_eng.py:53 | integer powers satisfy x ** n == x * x ** (n - 1) for every integer n when x != 0 |
| SoftmaxGrad.ColumnClosedForm | grad_eng.py:107-113 | what the doubly nested loop adds for input position j is s[j] * (og[j] - sum_i og[i] * s[i]), the softmax Jacobian-vector product |
| SoftmaxGrad.ShiftInvariance | grad_eng.py:107-113 | when the outputs sum to 1, what the shared step hands its input positions sums to zero, whatever the output gradients |
| SoftmaxGrad.InflowSingle | grad_eng.py:108-113 | an input that appears once among the softmax inputs receives exactly its own column |
| SoftmaxGrad.InflowNextRow | grad_eng.py:108 | one more pass of the outer loop adds that output's row to what the earlier rows sent |
| SoftmaxGrad.UpdateClosedForm | grad_eng.py:107-113 | after one run of the shared step, an input that occurs once has received s[j] * (og[j] - sum_i og[i] * s[i]) |
| SoftmaxGrad.Update | grad_eng.py:107-113 | the shared step changes no gradient other than those of the softmax inputs |
| Chain.Step | grad_eng.py:31-113 | the backward step of a node fails exactly when it is a `x ** 0` at x == 0, and it changes only the gradients of the nodes it writes into |
| Chain.StepFails | grad_eng.py:57 | the only step that raises is `0 * 0.0 ** -1`, the step of `x ** 0` at x == 0 |
| Chain.WritesOlder | grad_eng.py:31-113 | every node a step writes into is older than the node whose step it is |
| Chain.StepIsChainRule | grad_eng.py:43-46 | every single-output step adds out.grad times the local derivative to each operand, and leaves every other gradient unchanged |
| Chain.Coef | grad_eng.py:31-86 | the local derivative of a single-output node is zero for every node that is not one of its parents |
| Chain.SoftmaxStepClosedForm | grad_eng.py:107-113 | the step of any softmax output adds s[j] * (og[j] - sum_i og[i] * s[i]) to an input that occurs once among the inputs |
| Chain.SoftmaxStepShiftInvariant | grad_eng.py:107-113 | the shared softmax step hands its input positions gradients that sum to zero |
| Chain.StepMulUnfold | grad_eng.py:43-46 | the step of x * y adds y * out.grad to x and x * out.grad to y, in that order, including when x and y are the same node |
| Chain.StepPowUnfold | grad_eng.py:55-57 | the step of x ** e adds e * x ** (e - 1) * out.grad to x |
| Chain.StepReluUnfold | grad_eng.py:69-71 | the step of relu(x) adds out.grad to x exactly when x > 0 |
| Chain.StepTanhUnfold | grad_eng.py:84-86 | the step of tanh(x) adds (1 - t * t) * out.grad to x, where t is the cached forward value |
| Topo.Dfs | grad_eng.py:137-142 | `build_topo(v)`: mark v, explore its parents in order, then append v |
| Topo.DfsCorrect | grad_eng.py:137-142 | from a consistent state, `build_topo(v)` appends exactly the nodes reachable from v that were not yet listed, and keeps the list duplicate-free with parents first |
| Topo.TopoOrder | grad_eng.py:134-144 | the order holds every node reachable from the root exactly once, puts every parent before its children, is closed under parents and ends with the root |
| Topo.SortedParentsBefore | grad_eng.py:140-142 | in the list `build_topo` builds, every parent comes before each node that lists it |
| Backprop.Replay | grad_eng.py:150-151 | the reverse loop, stopping at the first step that raises |
| Backprop.ReplayOk | grad_eng.py:150-151 | the loop runs to the end exactly when none of its steps is a failing power step |
| Backprop.ReplayFrame | grad_eng.py:150-151 | a node that no step of the order writes into keeps its gradient |
| Backprop.ReplayAdjoint | grad_eng.py:150-151 | when parents come first and every step is a chain-rule step, each gradient after the loop is its old value plus the sum of its consumers' final gradients times the local derivatives |
| Backprop.BackwardSpec | grad_eng.py:125-151 | `backward()`: set the root's gradient to 1, then replay the topological order in reverse |
| Backprop.BackwardSeed | grad_eng.py:147 | after `backward()` the root's gradient is exactly 1, and no node newer than the root has changed |
| Backprop.BackwardOk | grad_eng.py:125-151 | `backward()` raises exactly when some node reachable from the root is a `x ** 0` at x == 0 |
| Backprop.BackwardAdjoint | grad_eng.py:125-151 | on a graph without softmax, the gradients `backward()` leaves satisfy the adjoint equations of reverse mode, and nodes the root does not depend on keep their gradient |
| Engine.Graph.NewValue | grad_eng.py:14-21 | a new node is appended with gradient 0.0 and nothing else changes |
| Engine.Graph.Leaf | grad_eng.py:14-21 | `Value(data)` appends a leaf with gradient 0.0 |
| Engine.Graph.Promote | grad_eng.py:28 | a plain number becomes a new leaf, and a Value is used as it is |
| Engine.Graph.Add | grad_eng.py:27-37 | `a + b` appends a node with value a.data + b.data whose operands are a and b, after a leaf for b when b is a number |
| Engine.Graph.Mul | grad_eng.py:39-49 | `a * b` appends a node with value a.data * b.data whose operands are a and b, after a leaf for b when b is a number |
| Engine.Graph.Pow | grad_eng.py:51-60 | `a ** e` fails when e is a Value and when a.data is 0 with e negative; otherwise it appends a node with value a.data ** e |
| Engine.Graph.Relu | grad_eng.py:66-74 | `a.relu()` appends a node with value max(0, a.data) |
| Engine.Graph.Tanh | grad_eng.py:76-89 | `a.tanh()` appends a node that caches the given tanh value t |
| Engine.Graph.Softmax | grad_eng.py:91-118 | softmax fails on an empty list and changes nothing; otherwise it appends one output per input, output k with value exps[k] / sum(exps) and input k as its only operand |
| Engine.Graph.SumExps | grad_eng.py:100 | `sum(exps)`: the loop's result is the sum of all the exponentials |
| Engine.Graph.AppendOutputs | grad_eng.py:102-105 | the loop appends output i with probability probs[i], operand values[i] and gradient 0.0, and returns the new handles in order |
| Engine.Graph.Neg | grad_eng.py:157-158 | `-a` is a * -1: a leaf -1, then a product whose value is -a.data |
| Engine.Graph.Sub | grad_eng.py:160-161 | `a - b` is a + (-b), with value a.data - b: for a Value b it appends a leaf -1, the product b * -1 and the sum; for a number b it appends a leaf -b and the sum |
| Engine.Graph.RSub | grad_eng.py:163-164 | `c - a` is (-a) + c, with value c - a.data: it appends a leaf -1, the product a * -1, a leaf c and their sum |
| Engine.Graph.TrueDiv | grad_eng.py:166-167 | `a / b` is a * b ** -1: it fails with division by zero exactly when b is 0, changing nothing; otherwise it appends b ** -1 (for a Value b) or a leaf 1 / b (for a number b), then the product, with value a.data / b |
| Engine.Graph.RTrueDiv | grad_eng.py:169-170 | `c / a` is (a ** -1) * c: it fails exactly when a.data is 0, changing nothing; otherwise it appends a ** -1, a leaf c and their product, with value c / a.data |
| Engine.Graph.RAdd | grad_eng.py:172-173 | `c + a` is a + c: a leaf c, then the sum with value a.data + c |
| Engine.Graph.RMul | grad_eng.py:175-176 | `c * a` is a * c: a leaf c, then the product with value a.data * c |
| Engine.Graph.AddStep | grad_eng.py:31-34 | the step of a sum, in place, equals Step |
| Engine.Graph.MulStep | grad_eng.py:43-46 | the step of a product, in place, equals Step |
| Engine.Graph.PowStep | grad_eng.py:55-57 | the step of a power, in place, equals Step, or raises and changes nothing exactly when Step fails |
| Engine.Graph.ReluStep | grad_eng.py:69-71 | the step of relu, in place, equals Step |
| Engine.Graph.TanhStep | grad_eng.py:84-86 | the step of tanh, in place, equals Step |
| Engine.Graph.SoftmaxRow | grad_eng.py:109-113 | the inner loop adds output i's row to every input and leaves the outputs' gradients alone |
| Engine.Graph.SoftmaxStep | grad_eng.py:107-113 | the doubly nested loop, in place, leaves the gradients equal to the shared step's closed-form update |
| Engine.Graph.RunStep | grad_eng.py:151 | `node._backward()` dispatches on the operation and equals Step; it reports failure exactly when Step fails |
| Engine.Graph.BuildTopo | grad_eng.py:137-142 | the recursive `build_topo` leaves the visited set and the list that Dfs specifies |
| Engine.Graph.Backward | grad_eng.py:125-151 | `backward()` in place: the nodes do not change, and the gradients and the raised-or-not outcome are BackwardSpec's |
| Intended.RowStep | grad_eng.py:107-113 | the intended step of softmax output k adds only row k of the Jacobian-vector product |
| Intended.IntendedStep | grad_eng.py:107-116 | the intended step fails exactly where Step fails and changes only the gradients of the node's intended parents |
| Intended.RowStepElsewhere | grad_eng.py:107-113 | a softmax output's row changes no gradient other than those of the call's inputs |
| Intended.RowsMakeOneUpdate | grad_eng.py:107-116 | running the intended step of every output of a softmax call once adds the Jacobian-vector product exactly once |
| Intended.IntendedParents | grad_eng.py:105 | the intended parents of a node include its actual parents and every node its step writes into |
| Intended.WellFormedIntendedOlder | grad_eng.py:105 | in a well-formed graph every intended parent is older than its node, so the corrected wiring is acyclic too |
| Intended.IntendedDfs | grad_eng.py:137-142 | `build_topo(v)` over the intended parents keeps the list built so far and appends only nodes no newer than v |
| Intended.IntendedOrder | grad_eng.py:134-144 | the corrected order ends with the root and lists only nodes no newer than it |
| Intended.IntendedPassAgrees | grad_eng.py:125-151 | on a graph without softmax, the corrected `backward()` (intended order, intended steps) gives exactly the gradients and outcome of `backward()` as written |
| Examples.FanOutOrder | grad_eng.py:137-144 | for y = x + x, `build_topo` from y lists x and then y |
| Examples.FanOutAccumulates | grad_eng.py:31-34 | y = x + x gives x.grad == 2; a second `backward()` adds another 2 and sets y.grad back to 1 |
| Examples.FanOutOnGraph | grad_eng.py:125-151 | the same two `backward()` calls through the Graph class give 2 and then 4 |
| Examples.ProductSumOrder | grad_eng.py:137-144 | for c = a * b + a, `build_topo` from c lists a, b, a * b, c, visiting a only once |
| Examples.ProductSumBackward | grad_eng.py:39-49 | c = a * b + a at a = 2, b = 3: `c.backward()` gives a.grad == b + 1 == 4 and b.grad == a == 2 |
| Examples.ProductSumOnGraph | grad_eng.py:125-151 | the same through the Graph class: c.data == 8, a.grad == 4, b.grad == 2 |
| Examples.TanhAtZeroGrad | grad_eng.py:84-86 | for y = tanh(x) with t = 0, `backward()` gives x.grad == 1 |
| Examples.TanhAtZeroOnGraph | grad_eng.py:76-89 | the same through the Graph class |
| Examples.SoftmaxEqualInputs | grad_eng.py:99-105 | softmax of two inputs with equal exponentials gives 0.5 and 0.5 |
| Examples.UpdatePair | grad_eng.py:107-113 | the shared step over two distinct inputs adds s[j] * (og[j] - d) to each, where d is the weighted sum of the output gradients |
| Examples.SharedStepOrder | grad_eng.py:105 | for L = o0 * o1 over softmax([x0, x1]), the order holds both outputs |
| Examples.SoftmaxCountedTwice | grad_eng.py:115-116 | in that graph the shared step runs twice, so x0 ends with twice its column, 3/16 instead of 3/32 |
| Examples.SharedStepIntendedOrder | grad_eng.py:134-144 | over the intended parents, the order from L is x0, x1, o0, o1, L |
| Examples.SharedStepIntended | grad_eng.py:107-116 | the corrected pass over L = o0 * o1 runs each output's row once and gives x0.grad == 3/32, the derivative of L |
| Examples.CutOffOrder | grad_eng.py:105 | a softmax output lists only its own input as a parent, so the order from o0 misses the other input |
| Examples.CutOffWiring | grad_eng.py:105 | o0's step writes into x1, which o0 does not list as a parent; the intended parents include x1 |
| Examples.SoftmaxInputCutOff | grad_eng.py:105 | o0's step sends -3/16 to x1 = a * c, but x1's step never runs, so a keeps a zero gradient |
| Examples.CutOffIntendedOrder | grad_eng.py:105 | over the intended parents, the order from o0 holds x1 and, before it, a and c |
| Examples.CutOffIntended | grad_eng.py:105 | the corrected `o0.backward()` runs x1's step after o0's, so a.grad == c * x1.grad == -3/8 |

## Left out

- Floating point. Values and gradients are real numbers, with no rounding, overflow, infinities or NaN. Python ints and floats are both reals.
- `**` with a float exponent. Only integer exponents are modelled. A non-integer power of a negative base, which Python would give as a complex number, is not modelled.
- Engine.Graph.Tanh: the value `t = math.tanh(x)` is a parameter, because tanh is transcendental. The backward step uses the cached t exactly as the source does.
- Engine.Graph.Softmax: the exponentials `exp(v.data - max_val)` are a parameter: any positive numbers. The stabilising shift by `max_val` is therefore not modelled. What is modelled is the error on an empty list (the `max` of nothing), the sum, the division and the wiring of the outputs.
- Exceptions other than the ones listed in `Error` are not modelled. An operand that is neither a Value nor a number is one example. Python's recursion limit in `build_topo` on very deep graphs is another.
- The `assert` in `__pow__` is modelled as always active. Under `python -O` it would be skipped.
- `_op` labels and `__repr__` (grad_eng.py:182-183) are not modelled. They only produce text.
- Object identity is represented by arena indices. Every Value of a computation lives in one `Graph`, and nothing is ever freed.
- The iteration order of the set `_prev` is represented by operand order. The set of nodes `build_topo` lists and its parents-first property do not depend on that order. The exact sequence does.
- Backprop.BackwardAdjoint: stated only for graphs in which no softmax output is reachable. As written, a softmax output's step is not a chain-rule step of that output alone (see Findings).
- Where the code and the natural reading of its design disagree, the model follows the code:
  - A backward step can raise. `x ** 0` at `x.data == 0` fails in the step, which evaluates `0 * 0.0 ** -1`, and the pass stops with the gradients written so far.
  - `backward()` does not deduplicate the shared softmax step.

## Findings

| source | as written | input that shows it | evidently intended | confidence | as-written member | corrected member |
|---|---|---|---|---|---|---|
| grad_eng.py:115-116 | every output of a softmax call gets the same closure, which adds the whole Jacobian-vector product; the closure runs once for each output that is in the order | L = o0 * o1 with [o0, o1] = softmax([x0, x1]) at probabilities 1/4 and 3/4: `L.backward()` gives x0.grad = 3/16, twice the derivative 3/32 | the steps of all outputs together add the product once, for example with each output adding its own row | not executed | Examples.SoftmaxCountedTwice | Intended.RowsMakeOneUpdate |
| grad_eng.py:105 | output k lists only `values[k]` as a parent, but its step writes into every input | [o0, o1] = softmax([x0, x1]) with x1 = a * c, a = 1, c = 2: `o0.backward()` sends -3/16 to x1 but never runs x1's step, so a.grad stays 0 instead of -3/8 | each output lists every input as a parent, so every input is ordered before the outputs and its own step runs | not executed | Examples.SoftmaxInputCutOff | Examples.CutOffIntended |

The main model keeps the code as written. `Chain.Step` runs the whole shared
step for every softmax output, and `Values.Parents` lists one input. The
members of `Intended` state the corrected behaviour next to it:
`IntendedPass` seeds the root, orders the graph over `IntendedParents` and
replays `IntendedStep`, which runs one row per softmax output. On the two
graphs above it gives the derivatives 3/32 and -3/8
(`Examples.SharedStepIntended`, `Examples.CutOffIntended`), and on graphs
without softmax it agrees with `backward()` as written
(`Intended.IntendedPassAgrees`).

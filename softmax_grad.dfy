/**
 * The backward step shared by all outputs of one softmax call
 * (grad_eng.py:107-113), as a specification on values.
 *
 * With s the outputs' forward values and og their gradients, the step adds,
 * for every pair (i, j), Term(s, og, i, j) into the gradient of input j. Inputs
 * may repeat (softmax([x, x])), so what reaches a node is the sum over every
 * position j at which it appears.
 */
module SoftmaxGrad {
  import opened Values

  /** What output i sends to input position j. */
  function Term(s: seq<real>, og: seq<real>, i: nat, j: nat): real
    requires |og| == |s| && i < |s| && j < |s|
  {
    if i == j then og[i] * s[i] * (1.0 - s[j]) else -og[i] * s[i] * s[j]
  }

  /** Everything rows 0 .. rows-1 send to input position j. */
  function Column(s: seq<real>, og: seq<real>, j: nat, rows: nat): real
    requires |og| == |s| && j < |s| && rows <= |s|
  {
    if rows == 0 then 0.0 else Column(s, og, j, rows - 1) + Term(s, og, rows - 1, j)
  }

  /** The weighted sum of the first n output gradients, sum of og[i] * s[i]. */
  function Dot(s: seq<real>, og: seq<real>, n: nat): real
    requires |og| == |s| && n <= |s|
  {
    if n == 0 then 0.0 else Dot(s, og, n - 1) + og[n - 1] * s[n - 1]
  }

  ghost predicate Targets(values: seq<Handle>, s: seq<real>, og: seq<real>, size: nat)
  {
    |values| == |s| == |og| && forall j :: 0 <= j < |values| ==> values[j] < size
  }

  /** What row i sends to node u through positions 0 .. cols-1. */
  function RowInflow(values: seq<Handle>, s: seq<real>, og: seq<real>, u: Handle, i: nat, cols: nat): real
    requires |values| == |s| == |og| && i < |s| && cols <= |s|
  {
    if cols == 0 then 0.0
    else RowInflow(values, s, og, u, i, cols - 1) + (if values[cols - 1] == u then Term(s, og, i, cols - 1) else 0.0)
  }

  /** What rows 0 .. rows-1 send to node u through positions 0 .. cols-1. */
  function Inflow(values: seq<Handle>, s: seq<real>, og: seq<real>, u: Handle, rows: nat, cols: nat): real
    requires |values| == |s| == |og| && rows <= |s| && cols <= |s|
  {
    if cols == 0 then 0.0
    else Inflow(values, s, og, u, rows, cols - 1) + (if values[cols - 1] == u then Column(s, og, cols - 1, rows) else 0.0)
  }

  /** The gradient vector after one run of the shared softmax step. */
  function Update(g: seq<real>, values: seq<Handle>, s: seq<real>, og: seq<real>): (r: seq<real>)
    requires Targets(values, s, og, |g|)
    ensures |r| == |g|
    ensures forall u :: 0 <= u < |g| && u !in values ==> r[u] == g[u]
  {
    InflowElsewhere(values, s, og, |s|, |s|);
    seq(|g|, u requires 0 <= u < |g| => g[u] + Inflow(values, s, og, u, |s|, |s|))
  }

  /** A node that is not an input of the softmax receives nothing. */
  lemma {:induction false} InflowElsewhere(values: seq<Handle>, s: seq<real>, og: seq<real>, rows: nat, cols: nat)
    requires |values| == |s| == |og| && rows <= |s| && cols <= |s|
    ensures forall u :: u !in values ==> Inflow(values, s, og, u, rows, cols) == 0.0
  {
    if cols > 0 {
      InflowElsewhere(values, s, og, rows, cols - 1);
    }
  }

  /** Before any row has run, nothing has reached any node. */
  lemma {:induction false} InflowNoRows(values: seq<Handle>, s: seq<real>, og: seq<real>, u: Handle, cols: nat)
    requires |values| == |s| == |og| && cols <= |s|
    ensures Inflow(values, s, og, u, 0, cols) == 0.0
  {
    if cols > 0 {
      InflowNoRows(values, s, og, u, cols - 1);
    }
  }

  /** Term(s, og, i, j) from the entries it reads, as the loop body reads them. */
  lemma TermAt(s: seq<real>, og: seq<real>, i: nat, j: nat, oi: real, si: real, sj: real)
    requires |og| == |s| && i < |s| && j < |s| && oi == og[i] && si == s[i] && sj == s[j]
    ensures Term(s, og, i, j) == if i == j then oi * si * (1.0 - sj) else -oi * si * sj
  {
  }

  /** One pass of the inner loop: adding Term(s, og, i, j) into input position j. */
  lemma Accumulate(g: seq<real>, g0: seq<real>, values: seq<Handle>, s: seq<real>, og: seq<real>, i: nat, j: nat, x: real)
    requires |values| == |s| == |og| && i < |s| && j < |s| && |g| == |g0| && values[j] < |g|
    requires forall u :: 0 <= u < |g| ==> g[u] == g0[u] + RowInflow(values, s, og, u, i, j)
    requires x == Term(s, og, i, j)
    ensures forall u :: 0 <= u < |g| ==> g[values[j] := g[values[j]] + x][u] == g0[u] + RowInflow(values, s, og, u, i, j + 1)
  {
  }

  /** Adding one more row to the rows already accumulated (the outer loop's step). */
  lemma {:induction false} InflowNextRow(values: seq<Handle>, s: seq<real>, og: seq<real>, u: Handle, rows: nat, cols: nat)
    requires |values| == |s| == |og| && rows < |s| && cols <= |s|
    ensures Inflow(values, s, og, u, rows, cols) + RowInflow(values, s, og, u, rows, cols)
         == Inflow(values, s, og, u, rows + 1, cols)
  {
    if cols > 0 {
      InflowNextRow(values, s, og, u, rows, cols - 1);
    }
  }

  /**
   * The closed form of one column: what input position j receives is
   * s[j] * (og[j] - sum of og[i] * s[i]), the softmax Jacobian-vector product.
   */
  lemma {:induction false} ColumnPartial(s: seq<real>, og: seq<real>, j: nat, rows: nat)
    requires |og| == |s| && j < |s| && rows <= |s|
    ensures Column(s, og, j, rows) == (if j < rows then og[j] * s[j] else 0.0) - s[j] * Dot(s, og, rows)
  {
    if rows > 0 {
      var i := rows - 1;
      ColumnPartial(s, og, j, i);
      var p := og[i] * s[i];
      assert Term(s, og, i, j) == (if i == j then p else 0.0) - s[j] * p;
      assert s[j] * Dot(s, og, rows) == s[j] * Dot(s, og, i) + s[j] * p;
    }
  }

  lemma ColumnClosedForm(s: seq<real>, og: seq<real>, j: nat)
    requires |og| == |s| && j < |s|
    ensures Column(s, og, j, |s|) == s[j] * (og[j] - Dot(s, og, |s|))
  {
    ColumnPartial(s, og, j, |s|);
  }

  lemma {:induction false} ColumnsSum(s: seq<real>, og: seq<real>, n: nat)
    requires |og| == |s| && n <= |s|
    ensures ColumnTotal(s, og, n) == Dot(s, og, n) - Total(s, n) * Dot(s, og, |s|)
  {
    if n > 0 {
      ColumnsSum(s, og, n - 1);
      ColumnClosedForm(s, og, n - 1);
      var d := Dot(s, og, |s|);
      assert Column(s, og, n - 1, |s|) == og[n - 1] * s[n - 1] - s[n - 1] * d;
      assert Total(s, n) * d == Total(s, n - 1) * d + s[n - 1] * d;
    }
  }

  /** Sum over input positions 0 .. n-1 of what each receives. */
  function ColumnTotal(s: seq<real>, og: seq<real>, n: nat): real
    requires |og| == |s| && n <= |s|
  {
    if n == 0 then 0.0 else ColumnTotal(s, og, n - 1) + Column(s, og, n - 1, |s|)
  }

  /**
   * When the outputs are probabilities (they sum to 1, as softmax's do), the
   * gradient the step hands to its inputs sums to zero whatever the output
   * gradients are: softmax ignores a common shift of its inputs.
   */
  lemma ShiftInvariance(s: seq<real>, og: seq<real>)
    requires |og| == |s| && Total(s, |s|) == 1.0
    ensures ColumnTotal(s, og, |s|) == 0.0
  {
    ColumnsSum(s, og, |s|);
  }

  /** Inflow of a node that occurs exactly once among the inputs, at position j. */
  lemma {:induction false} InflowSingle(values: seq<Handle>, s: seq<real>, og: seq<real>, j: nat, rows: nat, cols: nat)
    requires |values| == |s| == |og| && rows <= |s| && cols <= |s| && j < |s|
    requires forall k :: 0 <= k < |values| && k != j ==> values[k] != values[j]
    ensures Inflow(values, s, og, values[j], rows, cols) == if j < cols then Column(s, og, j, rows) else 0.0
  {
    if cols > 0 {
      InflowSingle(values, s, og, j, rows, cols - 1);
    }
  }

  /**
   * After one run of the shared step, an input that occurs once among the
   * inputs, at position j, has received s[j] * (og[j] - sum_i og[i] * s[i]).
   */
  lemma UpdateClosedForm(g: seq<real>, values: seq<Handle>, s: seq<real>, og: seq<real>, j: nat)
    requires Targets(values, s, og, |g|) && j < |values|
    requires forall k :: 0 <= k < |values| && k != j ==> values[k] != values[j]
    ensures Update(g, values, s, og)[values[j]] == g[values[j]] + s[j] * (og[j] - Dot(s, og, |s|))
  {
    InflowSingle(values, s, og, j, |s|, |s|);
    ColumnClosedForm(s, og, j);
  }
}

/**
 * The depth-first topological sort inside `Value.backward`
 * (`build_topo`, grad_eng.py:134-144), as a specification on values.
 *
 * The traversal state is the `visited` set and the `topo` list. A node not
 * yet visited is marked, its parents are explored in order, and then it is
 * appended. Parents are explored in operand order (Python iterates the set
 * `_prev` in an order the language leaves open).
 */
module Topo {
  import opened Values

  datatype Trace = Trace(visited: set<Handle>, order: seq<Handle>)

  /** `build_topo(v)`. */
  ghost function Dfs(nodes: seq<Node>, v: Handle, t: Trace): Trace
    requires Acyclic(nodes) && v < |nodes|
    decreases v, 1, 0
  {
    if v in t.visited then t
    else
      var t1 := DfsParents(nodes, v, 0, Trace(t.visited + {v}, t.order));
      Trace(t1.visited, t1.order + [v])
  }

  /** `for parent in v._prev: build_topo(parent)`, from parent number i on. */
  ghost function DfsParents(nodes: seq<Node>, v: Handle, i: nat, t: Trace): Trace
    requires Acyclic(nodes) && v < |nodes| && i <= |Parents(nodes[v].op)|
    decreases v, 0, |Parents(nodes[v].op)| - i
  {
    var ps := Parents(nodes[v].op);
    if i == |ps| then t
    else
      DfsParents(nodes, v, i + 1, Dfs(nodes, ps[i], t))
  }

  /** The nodes reachable from v through parent links, v included. */
  ghost function Reachable(nodes: seq<Node>, v: Handle): set<Handle>
    requires Acyclic(nodes) && v < |nodes|
    decreases v, 1, 0
  {
    {v} + ParentsReach(nodes, v, 0)
  }

  /** The nodes reachable from parents number i, i+1, ... of v. */
  ghost function ParentsReach(nodes: seq<Node>, v: Handle, i: nat): set<Handle>
    requires Acyclic(nodes) && v < |nodes| && i <= |Parents(nodes[v].op)|
    decreases v, 0, |Parents(nodes[v].op)| - i
  {
    var ps := Parents(nodes[v].op);
    if i == |ps| then {}
    else
      Reachable(nodes, ps[i]) + ParentsReach(nodes, v, i + 1)
  }

  /** The set of elements of a sequence. */
  ghost function Elems(s: seq<Handle>): set<Handle>
    decreases |s|
  {
    if s == [] then {} else Elems(s[..|s| - 1]) + {s[|s| - 1]}
  }

  lemma ElemsAppend(s: seq<Handle>, v: Handle)
    ensures Elems(s + [v]) == Elems(s) + {v}
  {
    assert (s + [v])[..|s|] == s;
  }

  lemma {:induction false} ElemsMembers(s: seq<Handle>)
    ensures forall u :: u in Elems(s) <==> u in s
    decreases |s|
  {
    if s != [] {
      var rest := s[..|s| - 1];
      ElemsMembers(rest);
      assert s == rest + [s[|s| - 1]];
    }
  }

  /**
   * s is a topological order without repetition: every element names a node,
   * occurs once, and comes after all of its parents (stated for the last
   * element, then for the rest).
   */
  ghost predicate Sorted(nodes: seq<Node>, s: seq<Handle>)
    decreases |s|
  {
    if s == [] then true
    else
      var last, rest := s[|s| - 1], s[..|s| - 1];
      && last < |nodes|
      && last !in Elems(rest)
      && Sorted(nodes, rest)
      && forall k :: 0 <= k < |Parents(nodes[last].op)| ==> Parents(nodes[last].op)[k] in Elems(rest)
  }

  /** The traversal state is consistent: `topo` is duplicate-free and closed, and all it holds is visited. */
  ghost predicate Sound(nodes: seq<Node>, t: Trace)
  {
    && Sorted(nodes, t.order)
    && Elems(t.order) <= t.visited
    && (forall u :: u in t.visited ==> u < |nodes|)
  }

  /** Nodes marked but not yet appended: those whose exploration is under way. */
  ghost function Pending(t: Trace): set<Handle>
  {
    t.visited - Elems(t.order)
  }

  ghost predicate PendingFrom(t: Trace, lo: nat)
  {
    forall u :: u in Pending(t) ==> u >= lo
  }

  ghost predicate Prefix(a: seq<Handle>, b: seq<Handle>)
  {
    |a| <= |b| && b[..|a|] == a
  }

  /** What one call leaves behind: it added the set R to `topo` and to `visited`, and finished no-one else's exploration. */
  ghost predicate Explored(nodes: seq<Node>, t: Trace, t': Trace, R: set<Handle>)
  {
    && Sound(nodes, t')
    && Prefix(t.order, t'.order)
    && Elems(t'.order) == Elems(t.order) + R
    && t'.visited == t.visited + R
    && Pending(t') <= Pending(t)
  }

  lemma {:induction false} ReachableBelow(nodes: seq<Node>, v: Handle)
    requires Acyclic(nodes) && v < |nodes|
    ensures forall u :: u in Reachable(nodes, v) ==> u <= v
    decreases v, 1, 0
  {
    ParentsReachBelow(nodes, v, 0);
  }

  lemma {:induction false} ParentsReachBelow(nodes: seq<Node>, v: Handle, i: nat)
    requires Acyclic(nodes) && v < |nodes| && i <= |Parents(nodes[v].op)|
    ensures forall u :: u in ParentsReach(nodes, v, i) ==> u < v
    decreases v, 0, |Parents(nodes[v].op)| - i
  {
    var ps := Parents(nodes[v].op);
    if i < |ps| {
      ReachableBelow(nodes, ps[i]);
      ParentsReachBelow(nodes, v, i + 1);
    }
  }

  lemma {:induction false} ParentsInReach(nodes: seq<Node>, v: Handle, i: nat)
    requires Acyclic(nodes) && v < |nodes| && i <= |Parents(nodes[v].op)|
    ensures forall k :: i <= k < |Parents(nodes[v].op)| ==> Parents(nodes[v].op)[k] in ParentsReach(nodes, v, i)
    decreases |Parents(nodes[v].op)| - i
  {
    if i < |Parents(nodes[v].op)| {
      ParentsInReach(nodes, v, i + 1);
    }
  }

  /** A sorted sequence that holds v holds everything reachable from v. */
  lemma {:induction false} SortedHoldsReachable(nodes: seq<Node>, s: seq<Handle>, v: Handle)
    requires Acyclic(nodes) && v < |nodes| && Sorted(nodes, s) && v in Elems(s)
    ensures Reachable(nodes, v) <= Elems(s)
    decreases |s|, v, 1, 0
  {
    var rest := s[..|s| - 1];
    if v == s[|s| - 1] {
      SortedHoldsParentsReach(nodes, s, v, 0);
    } else {
      SortedHoldsReachable(nodes, rest, v);
    }
  }

  lemma {:induction false} SortedHoldsParentsReach(nodes: seq<Node>, s: seq<Handle>, v: Handle, i: nat)
    requires Acyclic(nodes) && v < |nodes| && Sorted(nodes, s) && s != [] && s[|s| - 1] == v
    requires i <= |Parents(nodes[v].op)|
    ensures ParentsReach(nodes, v, i) <= Elems(s)
    decreases |s|, v, 0, |Parents(nodes[v].op)| - i
  {
    var ps := Parents(nodes[v].op);
    if i < |ps| {
      var rest := s[..|s| - 1];
      assert ps[i] in Elems(rest);
      SortedHoldsReachable(nodes, rest, ps[i]);
      SortedHoldsParentsReach(nodes, s, v, i + 1);
    }
  }

  /** Everything a sorted sequence holds names a node, and the parents of each element are in the sequence. */
  lemma {:induction false} SortedClosed(nodes: seq<Node>, s: seq<Handle>)
    requires Sorted(nodes, s)
    ensures forall i :: 0 <= i < |s| ==> s[i] < |nodes|
    ensures forall i, u :: 0 <= i < |s| && s[i] < |nodes| && u in Parents(nodes[s[i]].op) ==> u in Elems(s)
    decreases |s|
  {
    if s != [] {
      var n := |s| - 1;
      var rest := s[..n];
      SortedClosed(nodes, rest);
      forall i, u | 0 <= i < |s| && s[i] < |nodes| && u in Parents(nodes[s[i]].op)
        ensures u in Elems(s)
      {
        if i < n {
          assert rest[i] == s[i];
        }
      }
    }
  }

  /** A sorted sequence has no repetition. */
  lemma {:induction false} SortedNoDup(nodes: seq<Node>, s: seq<Handle>)
    requires Sorted(nodes, s)
    ensures NoDup(s)
    decreases |s|
  {
    if s != [] {
      var n := |s| - 1;
      var rest := s[..n];
      SortedNoDup(nodes, rest);
      ElemsMembers(rest);
      forall i, j | 0 <= i < j < |s| ensures s[i] != s[j] {
        assert rest[i] == s[i];
        if j < n {
          assert rest[j] == s[j];
        }
      }
    }
  }

  /** A sorted sequence puts the parents of each element before it. */
  lemma SortedParentsBefore(nodes: seq<Node>, s: seq<Handle>)
    requires Sorted(nodes, s)
    ensures forall i, j :: 0 <= i < |s| && 0 <= j < |s| && s[i] < |nodes| && s[j] in Parents(nodes[s[i]].op) ==> j < i
  {
    forall i, j | 0 <= i < |s| && 0 <= j < |s| && s[i] < |nodes| && s[j] in Parents(nodes[s[i]].op)
      ensures j < i
    {
      ParentBefore(nodes, s, i, j);
    }
  }

  lemma {:induction false} ParentBefore(nodes: seq<Node>, s: seq<Handle>, i: nat, j: nat)
    requires Sorted(nodes, s) && i < |s| && j < |s| && s[i] < |nodes| && s[j] in Parents(nodes[s[i]].op)
    ensures j < i
    decreases |s|
  {
    var n := |s| - 1;
    var rest := s[..n];
    if i < n && j < n {
      assert rest[i] == s[i] && rest[j] == s[j];
      ParentBefore(nodes, rest, i, j);
    } else if i < n {
      assert rest[i] == s[i];
      SortedClosed(nodes, rest);
    }
  }

  /** The set bookkeeping of `build_topo(v)` on a fresh v: mark v, explore its parents (adding PR), append v. */
  lemma FreshSets(V: set<Handle>, O: set<Handle>, v: Handle, PR: set<Handle>, V1: set<Handle>, O1: set<Handle>, O2: set<Handle>)
    requires V1 == (V + {v}) + PR && O1 == O + PR && O2 == O1 + {v}
    requires V1 - O1 <= (V + {v}) - O
    ensures O2 == O + ({v} + PR) && V1 == V + ({v} + PR)
    ensures V1 - O2 <= V - O
  {
  }

  /**
   * What `build_topo(v)` does to a consistent state: it appends exactly the
   * nodes reachable from v that were not in `topo` yet, keeps `topo`
   * duplicate-free with every parent before its children, and marks exactly
   * the reachable nodes visited.
   */
  lemma {:induction false} DfsCorrect(nodes: seq<Node>, v: Handle, t: Trace)
    requires Acyclic(nodes) && v < |nodes| && Sound(nodes, t) && PendingFrom(t, v + 1)
    ensures Explored(nodes, t, Dfs(nodes, v, t), Reachable(nodes, v))
    decreases v, 2, 0
  {
    if v in t.visited {
      assert v !in Pending(t);
      SortedHoldsReachable(nodes, t.order, v);
      assert t.order[..|t.order|] == t.order;
    } else {
      DfsFresh(nodes, v, t);
    }
  }

  /** `build_topo(v)` on a node not visited yet: mark, explore the parents, append. */
  lemma {:induction false} DfsFresh(nodes: seq<Node>, v: Handle, t: Trace)
    requires Acyclic(nodes) && v < |nodes| && Sound(nodes, t) && PendingFrom(t, v + 1)
    requires v !in t.visited
    ensures Explored(nodes, t, Dfs(nodes, v, t), Reachable(nodes, v))
    decreases v, 1, 0
  {
    var t0 := Trace(t.visited + {v}, t.order);
    assert Pending(t0) == Pending(t) + {v};
    DfsParentsCorrect(nodes, v, 0, t0);
    ParentsReachBelow(nodes, v, 0);
    ParentsInReach(nodes, v, 0);
    FreshStep(nodes, t, DfsParents(nodes, v, 0, t0), v, ParentsReach(nodes, v, 0));
  }

  /** The state after marking v, exploring its parents (which adds PR) and appending v. */
  lemma FreshStep(nodes: seq<Node>, t: Trace, t1: Trace, v: Handle, PR: set<Handle>)
    requires Acyclic(nodes) && v < |nodes| && Sound(nodes, t) && v !in t.visited
    requires Explored(nodes, Trace(t.visited + {v}, t.order), t1, PR)
    requires forall u :: u in PR ==> u < v
    requires forall k :: 0 <= k < |Parents(nodes[v].op)| ==> Parents(nodes[v].op)[k] in PR
    ensures Explored(nodes, t, Trace(t1.visited, t1.order + [v]), {v} + PR)
  {
    AppendExplored(nodes, t1, v);
    var t2 := Trace(t1.visited, t1.order + [v]);
    PrefixTrans(t.order, t1.order, t2.order);
    FreshSets(t.visited, Elems(t.order), v, PR, t1.visited, Elems(t1.order), Elems(t2.order));
  }

  /** Appending a marked node whose parents are all in `topo` keeps the state consistent. */
  lemma AppendExplored(nodes: seq<Node>, t: Trace, v: Handle)
    requires Acyclic(nodes) && v < |nodes| && Sound(nodes, t)
    requires v in t.visited && v !in Elems(t.order)
    requires forall k :: 0 <= k < |Parents(nodes[v].op)| ==> Parents(nodes[v].op)[k] in Elems(t.order)
    ensures var s := t.order + [v];
      && Sound(nodes, Trace(t.visited, s))
      && Elems(s) == Elems(t.order) + {v}
      && Prefix(t.order, s)
  {
    var s := t.order + [v];
    assert s[..|s| - 1] == t.order;
  }

  lemma PrefixTrans(a: seq<Handle>, b: seq<Handle>, c: seq<Handle>)
    requires Prefix(a, b) && Prefix(b, c)
    ensures Prefix(a, c)
  {
    assert c[..|a|] == c[..|b|][..|a|];
  }

  lemma {:induction false} DfsParentsCorrect(nodes: seq<Node>, v: Handle, i: nat, t: Trace)
    requires Acyclic(nodes) && v < |nodes| && i <= |Parents(nodes[v].op)|
    requires Sound(nodes, t) && PendingFrom(t, v) && v in t.visited && v !in Elems(t.order)
    ensures Explored(nodes, t, DfsParents(nodes, v, i, t), ParentsReach(nodes, v, i))
    decreases v, 0, |Parents(nodes[v].op)| - i
  {
    var ps := Parents(nodes[v].op);
    if i < |ps| {
      var p := ps[i];
      DfsCorrect(nodes, p, t);
      var t1 := Dfs(nodes, p, t);
      ReachableBelow(nodes, p);
      DfsParentsCorrect(nodes, v, i + 1, t1);
      var t2 := DfsParents(nodes, v, i + 1, t1);
      PrefixTrans(t.order, t1.order, t2.order);
    }
  }

  /**
   * The order `backward` replays: `build_topo(root)` from an empty state.
   * It holds every node reachable from the root exactly once, puts every
   * parent before each node that lists it, and ends with the root.
   */
  ghost function TopoOrder(nodes: seq<Node>, root: Handle): (order: seq<Handle>)
    requires Acyclic(nodes) && root < |nodes|
    ensures NoDup(order)
    ensures forall u :: u in order <==> u in Reachable(nodes, root)
    ensures forall k :: 0 <= k < |order| ==> order[k] < |nodes|
    ensures forall i, j :: 0 <= i < |order| && 0 <= j < |order| && order[j] in Parents(nodes[order[i]].op) ==> j < i
    ensures |order| > 0 && order[|order| - 1] == root
    ensures forall i, u :: 0 <= i < |order| && u in Parents(nodes[order[i]].op) ==> u in order
  {
    var t := Trace({}, []);
    DfsCorrect(nodes, root, t);
    var order := Dfs(nodes, root, t).order;
    SortedClosed(nodes, order);
    SortedNoDup(nodes, order);
    SortedParentsBefore(nodes, order);
    ElemsMembers(order);
    order
  }
}

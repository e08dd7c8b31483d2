/** The depth-first search of Graph::__topo_sort (graph.h:81-109): a variable is pushed after
    all of its consumers have been searched, and the pushed list is reversed at the end. */
module TopologicalSort {
  import opened Variables
  import opened GraphStructure

  /** The number of unvisited variables. */
  function CountFalse(flags: seq<bool>): nat
  {
    if |flags| == 0 then 0 else CountFalse(flags[..|flags| - 1]) + (if flags[|flags| - 1] then 0 else 1)
  }

  lemma {:induction false} CountFalseMark(flags: seq<bool>, v: nat)
    requires v < |flags| && !flags[v]
    ensures CountFalse(flags[v := true]) == CountFalse(flags) - 1
  {
    var last := |flags| - 1;
    if v < last {
      assert flags[v := true][..last] == flags[..last][v := true];
      CountFalseMark(flags[..last], v);
    } else {
      assert flags[v := true][..last] == flags[..last];
    }
  }

  lemma {:induction false} CountFalseMonotone(before: seq<bool>, after: seq<bool>)
    requires |before| == |after|
    requires forall k | 0 <= k < |before| :: before[k] ==> after[k]
    ensures CountFalse(after) <= CountFalse(before)
  {
    if |before| > 0 {
      CountFalseMonotone(before[..|before| - 1], after[..|after| - 1]);
    }
  }

  // ---------------------------------------------------------------------------
  // The search state as values: visited flags indexed by id and the post-order list

  /** Every pushed id is a visited variable, pushed once, and every consumer of a pushed
      variable is visited. */
  predicate Searched(vars: seq<Variable>, visited: seq<bool>, sorted: seq<nat>)
  {
    && |visited| == |vars|
    && Distinct(sorted)
    && (forall i | 0 <= i < |sorted| :: sorted[i] < |vars| && visited[sorted[i]])
    && (forall i, c: nat | 0 <= i < |sorted| && c in vars[sorted[i]].consumers :: c < |visited| && visited[c])
  }

  /** Visited but not yet pushed: on the search stack. */
  predicate OnStack(visited: seq<bool>, sorted: seq<nat>, k: nat)
  {
    k < |visited| && visited[k] && k !in sorted
  }

  /** Every consumer of a pushed variable was pushed before it. */
  predicate ConsumersFirst(vars: seq<Variable>, sorted: seq<nat>)
  {
    forall i, c: nat | 0 <= i < |sorted| && sorted[i] < |vars| && c in vars[sorted[i]].consumers :: c in sorted[..i]
  }

  /** The list only grew at its end, and only by ids that were unvisited in `visited0`. */
  predicate PushedOnly(visited0: seq<bool>, sorted0: seq<nat>, sorted: seq<nat>)
  {
    && |sorted0| <= |sorted| && sorted[..|sorted0|] == sorted0
    && forall j | |sorted0| <= j < |sorted| :: sorted[j] < |visited0| && !visited0[sorted[j]]
  }

  /** No flag was cleared. */
  predicate Grows(visited0: seq<bool>, visited: seq<bool>)
  {
    |visited0| == |visited| && forall k | 0 <= k < |visited| :: visited0[k] ==> visited[k]
  }

  lemma PushedOnlyTransitive(v0: seq<bool>, v1: seq<bool>, s0: seq<nat>, s1: seq<nat>, s2: seq<nat>)
    requires Grows(v0, v1) && PushedOnly(v0, s0, s1) && PushedOnly(v1, s1, s2)
    ensures PushedOnly(v0, s0, s2)
  {
    assert s2[..|s0|] == s2[..|s1|][..|s0|];
  }

  lemma SearchedConsumer(vars: seq<Variable>, visited: seq<bool>, sorted: seq<nat>, i: nat, c: nat)
    requires Searched(vars, visited, sorted) && i < |sorted| && c in vars[sorted[i]].consumers
    ensures c < |visited| && visited[c]
  {
  }

  /** Pushing v, all of whose consumers are visited, keeps the search state and takes v off
      the stack. */
  lemma {:induction false} Push(vars: seq<Variable>, visited0: seq<bool>, sorted0: seq<nat>,
                                visited: seq<bool>, pushed: seq<nat>, v: nat)
    requires Searched(vars, visited, pushed) && v < |vars| && visited[v] && v !in pushed
    requires forall j | 0 <= j < |vars[v].consumers| :: vars[v].consumers[j] < |visited| && visited[vars[v].consumers[j]]
    requires |visited0| == |visited| && !visited0[v]
    requires PushedOnly(visited0, sorted0, pushed)
    requires forall k: nat :: OnStack(visited, pushed, k) <==> OnStack(visited0, sorted0, k) || k == v
    ensures Searched(vars, visited, pushed + [v])
    ensures PushedOnly(visited0, sorted0, pushed + [v])
    ensures forall k: nat :: OnStack(visited, pushed + [v], k) <==> OnStack(visited0, sorted0, k)
  {
    var sorted := pushed + [v];
    assert sorted[..|pushed|] == pushed;
    assert sorted[..|sorted0|] == pushed[..|sorted0|];
    forall i, c: nat | 0 <= i < |sorted| && c in vars[sorted[i]].consumers
      ensures c < |visited| && visited[c]
    {
      if i == |pushed| {
        assert sorted[i] == v;
        var j :| 0 <= j < |vars[v].consumers| && vars[v].consumers[j] == c;
      } else {
        assert sorted[i] == pushed[i];
        SearchedConsumer(vars, visited, pushed, i, c);
      }
    }
    assert Distinct(sorted);
    assert forall i | 0 <= i < |sorted| :: sorted[i] < |vars| && visited[sorted[i]];
    assert Searched(vars, visited, sorted);
    forall k: nat
      ensures OnStack(visited, sorted, k) <==> OnStack(visited0, sorted0, k)
    {
      if k in pushed && k !in sorted0 {
        var j :| 0 <= j < |pushed| && pushed[j] == k;
        assert forall i | 0 <= i < |sorted0| :: sorted0[i] == pushed[i];
        assert j >= |sorted0|;
      }
    }
  }

  /** On a ranked graph, the consumers of v are pushed already when v is pushed: a visited
      consumer still on the stack would rank above v. */
  lemma {:induction false} PushOrdered(vars: seq<Variable>, rank: seq<nat>, visited0: seq<bool>, sorted0: seq<nat>,
                                       visited: seq<bool>, pushed: seq<nat>, v: nat)
    requires Ranked(vars, rank) && Searched(vars, visited, pushed) && ConsumersFirst(vars, pushed)
    requires v < |vars| && forall j | 0 <= j < |vars[v].consumers| :: vars[v].consumers[j] < |visited| && visited[vars[v].consumers[j]]
    requires forall k: nat :: OnStack(visited, pushed, k) <==> OnStack(visited0, sorted0, k) || k == v
    requires forall k: nat | OnStack(visited0, sorted0, k) :: k < |rank| && rank[k] > rank[v]
    ensures ConsumersFirst(vars, pushed + [v])
  {
    var sorted := pushed + [v];
    forall c: nat | c in vars[v].consumers
      ensures c in pushed
    {
      var j :| 0 <= j < |vars[v].consumers| && vars[v].consumers[j] == c;
      assert visited[c];
      assert rank[v] > rank[c];
      assert !OnStack(visited0, sorted0, c);
    }
    forall i, c: nat | 0 <= i < |sorted| && sorted[i] < |vars| && c in vars[sorted[i]].consumers
      ensures c in sorted[..i]
    {
      if i < |pushed| {
        assert sorted[..i] == pushed[..i];
      } else {
        assert sorted[..i] == pushed;
      }
    }
  }

  /** The state the search lambda captures by reference. */
  class Search {
    const vars: seq<Variable>
    var visited: seq<bool>
    var sorted: seq<nat>

    constructor (vars: seq<Variable>)
      ensures this.vars == vars && visited == seq(|vars|, _ => false) && sorted == []
    {
      this.vars := vars;
      visited := seq(|vars|, _ => false);
      sorted := [];
    }

    ghost predicate Inv()
      reads this
    {
      Indexed(vars) && Searched(vars, visited, sorted)
    }

    /** The lambda `dfs(var)`, entered for an unvisited variable. */
    method Visit(v: nat, ghost rank: seq<nat>)
      requires Inv() && v < |vars| && !visited[v]
      requires Ranked(vars, rank) ==>
        && ConsumersFirst(vars, sorted)
        && forall k: nat | OnStack(visited, sorted, k) :: k < |rank| && rank[k] > rank[v]
      modifies this
      decreases CountFalse(visited)
      ensures Inv() && visited[v] && v in sorted
      ensures Grows(old(visited), visited) && PushedOnly(old(visited), old(sorted), sorted)
      ensures forall k: nat :: OnStack(visited, sorted, k) <==> OnStack(old(visited), old(sorted), k)
      ensures Ranked(vars, rank) ==> ConsumersFirst(vars, sorted)
    {
      ghost var visited0, sorted0 := visited, sorted;
      CountFalseMark(visited, v);
      visited := visited[v := true];
      var consumers := vars[v].consumers;
      for i := 0 to |consumers|
        invariant Inv() && visited[v] && v !in sorted
        invariant forall j | 0 <= j < i :: consumers[j] < |visited| && visited[consumers[j]]
        invariant Grows(visited0, visited) && PushedOnly(visited0, sorted0, sorted)
        invariant forall k: nat :: OnStack(visited, sorted, k) <==> OnStack(visited0, sorted0, k) || k == v
        invariant CountFalse(visited) < CountFalse(visited0)
        invariant Ranked(vars, rank) ==> ConsumersFirst(vars, sorted)
      {
        var c := consumers[i];
        if !visited[c] {
          ghost var visited1, sorted1 := visited, sorted;
          Visit(c, rank);
          CountFalseMonotone(visited1, visited);
          PushedOnlyTransitive(visited0, visited1, sorted0, sorted1, sorted);
        }
      }
      if Ranked(vars, rank) {
        PushOrdered(vars, rank, visited0, sorted0, visited, sorted, v);
      }
      Push(vars, visited0, sorted0, visited, sorted, v);
      sorted := sorted + [v];
    }
  }

  /** Graph::__topo_sort over the variables of an arena: a search from every unvisited
      variable in arena order, then the pushed list reversed. Each id comes out exactly once,
      and on an acyclic graph every variable comes before each of its consumers. */
  method TopoSort(vars: seq<Variable>) returns (order: seq<nat>)
    requires Indexed(vars)
    ensures Permutation(order, |vars|) && |order| == |vars|
    ensures Acyclic(vars) ==> TopologicallyOrdered(vars, order)
  {
    ghost var rank: seq<nat> := if Acyclic(vars) then var r :| Ranked(vars, r); r else [];
    var search := new Search(vars);
    for k := 0 to |vars|
      invariant search.vars == vars && search.Inv()
      invariant forall j | 0 <= j < k :: search.visited[j]
      invariant forall j: nat :: !OnStack(search.visited, search.sorted, j)
      invariant Ranked(vars, rank) ==> ConsumersFirst(vars, search.sorted)
    {
      if !search.visited[vars[k].id] {
        search.Visit(vars[k].id, rank);
      }
    }
    var sorted := search.sorted;
    AllPushed(vars, search.visited, sorted);
    order := Reversed(sorted);
    ReversedPermutation(sorted, |vars|);
    if Acyclic(vars) {
      ReversedOrdered(vars, sorted);
    }
  }

  /** When the search has visited every variable and left none on the stack, every id has
      been pushed. */
  lemma AllPushed(vars: seq<Variable>, visited: seq<bool>, sorted: seq<nat>)
    requires Searched(vars, visited, sorted)
    requires forall j | 0 <= j < |vars| :: visited[j]
    requires forall j: nat :: !OnStack(visited, sorted, j)
    ensures forall j: nat | j < |vars| :: j in sorted
  {
    forall j: nat | j < |vars|
      ensures j in sorted
    {
      assert visited[j] && !OnStack(visited, sorted, j);
    }
  }

  /** Reversing a list holding each of 0 .. n-1 once gives such a list again. */
  lemma ReversedPermutation(sorted: seq<nat>, n: nat)
    requires Distinct(sorted) && (forall i | 0 <= i < |sorted| :: sorted[i] < n)
    requires forall j: nat | j < n :: j in sorted
    ensures Permutation(Reversed(sorted), n) && |Reversed(sorted)| == n
  {
    var order := Reversed(sorted);
    forall j: nat | j < n
      ensures j in order
    {
      assert j in sorted;
      var i :| 0 <= i < |sorted| && sorted[i] == j;
      assert order[|sorted| - 1 - i] == j;
    }
    PermutationLength(order, n);
  }

  /** When every consumer was pushed before the variable, the reversed list puts every
      variable before its consumers. */
  lemma ReversedOrdered(vars: seq<Variable>, sorted: seq<nat>)
    requires Distinct(sorted) && ConsumersFirst(vars, sorted)
    ensures TopologicallyOrdered(vars, Reversed(sorted))
  {
    var order := Reversed(sorted);
    forall p, q | 0 <= p < |order| && 0 <= q < |order| && order[p] < |vars| && order[q] in vars[order[p]].consumers
      ensures p < q
    {
      var a := |sorted| - 1 - p;
      assert order[q] in sorted[..a];
      assert sorted[a] == order[p];
      var b :| 0 <= b < a && sorted[b] == order[q];
      assert sorted[|sorted| - 1 - q] == order[q];
      assert b == |sorted| - 1 - q;
    }
  }
}

/** The shape of a graph held as an arena: the variable with id k sits at position k and
    refers to its inputs and consumers by id. Orderings of the ids and the rank that makes a
    graph acyclic are stated here. */
module GraphStructure {
  import opened Variables

  /** Every variable sits at the position of its id and every edge names a variable of the
      arena: the variable counter has handed out 0 .. n-1 to the variables of this one graph. */
  predicate Indexed(vars: seq<Variable>)
  {
    forall k | 0 <= k < |vars| ::
      && vars[k].id == k
      && (forall i | 0 <= i < |vars[k].consumers| :: vars[k].consumers[i] < |vars|)
      && (forall i | 0 <= i < |vars[k].inputs| :: vars[k].inputs[i] < |vars|)
  }

  /** `rank` strictly decreases along every consumer edge. */
  predicate Ranked(vars: seq<Variable>, rank: seq<nat>)
  {
    && |rank| == |vars|
    && forall u, c: nat | 0 <= u < |vars| && c in vars[u].consumers :: 0 <= c < |vars| && rank[u] > rank[c]
  }

  /** No consumer edges form a cycle: some rank decreases along all of them. */
  ghost predicate Acyclic(vars: seq<Variable>)
  {
    exists rank :: Ranked(vars, rank)
  }

  /** No id occurs twice. */
  predicate Distinct(order: seq<nat>)
  {
    forall i, j | 0 <= i < j < |order| :: order[i] != order[j]
  }

  /** `order` lists each of the ids 0 .. n-1 exactly once. */
  predicate Permutation(order: seq<nat>, n: nat)
  {
    && Distinct(order)
    && (forall i | 0 <= i < |order| :: order[i] < n)
    && (forall k | 0 <= k < n :: k in order)
  }

  /** Every variable comes before each of its consumers. */
  predicate TopologicallyOrdered(vars: seq<Variable>, order: seq<nat>)
  {
    forall p, q | 0 <= p < |order| && 0 <= q < |order| && order[p] < |vars| && order[q] in vars[order[p]].consumers :: p < q
  }

  /** The variables an id's inputs name, in the order of its input list. */
  function InputsOf(vars: seq<Variable>, k: nat): (inputs: seq<Variable>)
    requires Indexed(vars) && k < |vars|
    ensures |inputs| == |vars[k].inputs|
    ensures forall i | 0 <= i < |inputs| :: inputs[i] == vars[vars[k].inputs[i]]
  {
    seq(|vars[k].inputs|, i requires 0 <= i < |vars[k].inputs| => vars[vars[k].inputs[i]])
  }

  /** A sequence read back to front (std::reverse). */
  function Reversed(s: seq<nat>): (r: seq<nat>)
    ensures |r| == |s| && forall i | 0 <= i < |s| :: r[i] == s[|s| - 1 - i]
  {
    seq(|s|, i requires 0 <= i < |s| => s[|s| - 1 - i])
  }

  /** The ids 0 .. n-1. */
  function Ids(n: nat): (r: set<nat>)
    ensures forall k: nat :: k in r <==> k < n
  {
    if n == 0 then {} else Ids(n - 1) + {n - 1}
  }

  lemma {:induction false} IdsCardinality(n: nat)
    ensures |Ids(n)| == n
  {
    if n > 0 {
      IdsCardinality(n - 1);
    }
  }

  /** The ids a sequence lists. */
  function Elements(s: seq<nat>): (r: set<nat>)
    ensures forall x :: x in r <==> x in s
  {
    if |s| == 0 then {} else Elements(s[..|s| - 1]) + {s[|s| - 1]}
  }

  lemma {:induction false} DistinctCardinality(s: seq<nat>)
    requires Distinct(s)
    ensures |Elements(s)| == |s|
  {
    if |s| > 0 {
      var init := s[..|s| - 1];
      assert Distinct(init);
      DistinctCardinality(init);
      assert s[|s| - 1] !in init;
    }
  }

  /** A permutation of 0 .. n-1 has n entries. */
  lemma PermutationLength(order: seq<nat>, n: nat)
    requires Permutation(order, n)
    ensures |order| == n
  {
    DistinctCardinality(order);
    IdsCardinality(n);
    assert Elements(order) == Ids(n);
  }
}

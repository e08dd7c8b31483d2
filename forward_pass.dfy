/** Graph::forward (graph.h:111-123) over the arena: the variables are visited in a
    topological order and every variable with an operation runs `f` on its inputs. The pass
    changes nothing but the data of variables, so its state is the column of data, one entry
    per id; on an acyclic, consistently wired graph a pass that completes leaves every
    variable holding what its operation computes from its inputs' final data. */
module ForwardPass {
  import opened Failures
  import opened Tensors
  import opened Variables
  import opened GraphStructure

  /** What running an operation's `f` on its inputs does: the tensor it stores into the
      owning variable's data, if any, or the failure it throws. The graph instantiates it with
      the operations' dispatch (Operations.Apply); the pass works for any operation. */
  type Effect = (Operation, seq<Variable>) -> Result<Option<Tensor>>

  /** The data column of an arena. */
  function DataColumn(vars: seq<Variable>): (data: seq<Option<Tensor>>)
    ensures |data| == |vars| && forall k | 0 <= k < |vars| :: data[k] == vars[k].data
  {
    seq(|vars|, k requires 0 <= k < |vars| => vars[k].data)
  }

  /** The arena with its data column replaced. */
  function WithData(vars: seq<Variable>, data: seq<Option<Tensor>>): (r: seq<Variable>)
    requires |data| == |vars|
    ensures |r| == |vars| && forall k | 0 <= k < |vars| :: r[k] == vars[k].(data := data[k])
  {
    seq(|vars|, k requires 0 <= k < |vars| => vars[k].(data := data[k]))
  }

  /** Replacing the data column keeps the wiring, so an indexed arena stays indexed. */
  lemma WithDataIndexed(vars: seq<Variable>, data: seq<Option<Tensor>>)
    requires Indexed(vars) && |data| == |vars|
    ensures Indexed(WithData(vars, data))
  {
    var r := WithData(vars, data);
    forall k | 0 <= k < |r|
      ensures && r[k].id == k
              && (forall i | 0 <= i < |r[k].consumers| :: r[k].consumers[i] < |r|)
              && (forall i | 0 <= i < |r[k].inputs| :: r[k].inputs[i] < |r|)
    {
      assert r[k].consumers == vars[k].consumers && r[k].inputs == vars[k].inputs;
    }
  }

  /** Putting an arena's own data column back gives the arena. */
  lemma WithOwnData(vars: seq<Variable>)
    ensures WithData(vars, DataColumn(vars)) == vars
  {
  }

  /** Writing one variable's data in a rebuilt arena is rebuilding it from the updated
      column. */
  lemma WithDataUpdate(vars: seq<Variable>, data: seq<Option<Tensor>>, k: nat, t: Option<Tensor>)
    requires |data| == |vars| && k < |vars|
    ensures WithData(vars, data)[k := WithData(vars, data)[k].(data := t)] == WithData(vars, data[k := t])
  {
  }

  /** Reading the data column back from an arena whose column was replaced gives that
      column. */
  lemma DataColumnOfWithData(vars: seq<Variable>, data: seq<Option<Tensor>>)
    requires |data| == |vars|
    ensures DataColumn(WithData(vars, data)) == data
  {
  }

  /** The inputs of variable k as the operation sees them when the data column is `data`. */
  function InputsWith(vars: seq<Variable>, data: seq<Option<Tensor>>, k: nat): (inputs: seq<Variable>)
    requires Indexed(vars) && |data| == |vars| && k < |vars|
    ensures |inputs| == |vars[k].inputs|
    ensures forall i | 0 <= i < |inputs| ::
      inputs[i] == vars[vars[k].inputs[i]].(data := data[vars[k].inputs[i]])
  {
    seq(|vars[k].inputs|, i requires 0 <= i < |vars[k].inputs| =>
      vars[vars[k].inputs[i]].(data := data[vars[k].inputs[i]]))
  }

  /** They are the inputs of k in the arena whose data column is `data`. */
  lemma InputsWithIsInputsOf(vars: seq<Variable>, data: seq<Option<Tensor>>, k: nat)
    requires Indexed(vars) && |data| == |vars| && k < |vars|
    ensures Indexed(WithData(vars, data))
    ensures InputsOf(WithData(vars, data), k) == InputsWith(vars, data, k)
  {
    WithDataIndexed(vars, data);
  }

  /** Every input edge has its consumer edge: k reads i exactly when k is listed among the
      consumers of i (the wiring the graph builder performs when it links two variables). */
  predicate Wired(vars: seq<Variable>)
  {
    forall k, i: nat | 0 <= k < |vars| && i in vars[k].inputs :: i < |vars| && k in vars[i].consumers
  }

  /** One iteration of the loop of Graph::forward on the variable with id k: without an
      operation nothing happens; otherwise `f` runs on the variable's inputs and a tensor it
      produces becomes the variable's data. An exception ends the pass. */
  function Step(vars: seq<Variable>, data: seq<Option<Tensor>>, k: nat, eval: Effect): (r: (seq<Option<Tensor>>, Outcome))
    requires Indexed(vars) && |data| == |vars| && k < |vars|
    ensures |r.0| == |vars|
    ensures forall j | 0 <= j < |vars| && j != k :: r.0[j] == data[j]
    ensures vars[k].op.None? || r.1.Fail? ==> r.0 == data
  {
    match vars[k].op
    case None => (data, Pass)
    case Some(op) =>
      match eval(op, InputsWith(vars, data, k))
      case Err(e) => (data, Fail(e))
      case Ok(None) => (data, Pass)
      case Ok(Some(t)) => (data[k := Some(t)], Pass)
  }

  /** Every id an order lists names a variable of the arena. */
  predicate InRange(order: seq<nat>, n: nat)
  {
    forall i | 0 <= i < |order| :: order[i] < n
  }

  /** The data column after the first n iterations of the loop, and whether an exception
      ended it; once an operation fails, later iterations do not run. A variable the loop has
      not reached yet, and a variable without an operation, keeps its data. */
  function Run(vars: seq<Variable>, order: seq<nat>, n: nat, eval: Effect): (r: (seq<Option<Tensor>>, Outcome))
    requires Indexed(vars) && InRange(order, |vars|) && n <= |order|
    ensures |r.0| == |vars|
    ensures forall j | 0 <= j < |vars| && j !in order[..n] :: r.0[j] == vars[j].data
    ensures forall j | 0 <= j < |vars| && vars[j].op.None? :: r.0[j] == vars[j].data
  {
    if n == 0 then (DataColumn(vars), Pass)
    else
      var r0 := Run(vars, order, n - 1, eval);
      assert order[..n] == order[..n - 1] + [order[n - 1]];
      if r0.1.Fail? then r0 else Step(vars, r0.0, order[n - 1], eval)
  }

  /** One more iteration after a run that has not failed is one step. */
  lemma RunNext(vars: seq<Variable>, order: seq<nat>, i: nat, eval: Effect)
    requires Indexed(vars) && InRange(order, |vars|) && i < |order|
    requires Run(vars, order, i, eval).1 == Pass
    ensures Run(vars, order, i + 1, eval) == Step(vars, Run(vars, order, i, eval).0, order[i], eval)
  {
  }

  /** Once a step fails, the outcome and the data stay what they were. */
  lemma {:induction false} RunFailureSticks(vars: seq<Variable>, order: seq<nat>, n: nat, m: nat, eval: Effect)
    requires Indexed(vars) && InRange(order, |vars|) && n <= m <= |order|
    requires Run(vars, order, n, eval).1.Fail?
    ensures Run(vars, order, m, eval) == Run(vars, order, n, eval)
  {
    forall i | n <= i < m
      ensures Run(vars, order, i, eval).1.Fail? ==> Run(vars, order, i + 1, eval) == Run(vars, order, i, eval)
    {
      if Run(vars, order, i, eval).1.Fail? {
        RunStops(vars, order, i, eval);
      }
    }
    var runs := seq(m + 1, i requires 0 <= i <= m => Run(vars, order, i, eval));
    FailureSticks(runs, (r: (seq<Option<Tensor>>, Outcome)) => r.1.Fail?, n, m);
  }

  /** The iteration after a failure changes nothing. */
  lemma RunStops(vars: seq<Variable>, order: seq<nat>, i: nat, eval: Effect)
    requires Indexed(vars) && InRange(order, |vars|) && i < |order|
    requires Run(vars, order, i, eval).1.Fail?
    ensures Run(vars, order, i + 1, eval) == Run(vars, order, i, eval)
  {
  }

  /** A pass that completes has passed every prefix. */
  lemma RunPassPrefix(vars: seq<Variable>, order: seq<nat>, n: nat, m: nat, eval: Effect)
    requires Indexed(vars) && InRange(order, |vars|) && n <= m <= |order|
    requires Run(vars, order, m, eval).1 == Pass
    ensures Run(vars, order, n, eval).1 == Pass
  {
    if Run(vars, order, n, eval).1.Fail? {
      RunFailureSticks(vars, order, n, m, eval);
    }
  }

  /** Variable k with an operation holds what the operation computes from its inputs under
      the data column `data`: the tensor `f` stores, or its original data when `f` stores
      none. */
  predicate Evaluated(vars: seq<Variable>, data: seq<Option<Tensor>>, k: nat, eval: Effect)
    requires Indexed(vars) && |data| == |vars| && k < |vars|
  {
    vars[k].op.Some? ==>
      match eval(vars[k].op.value, InputsWith(vars, data, k))
      case Ok(Some(t)) => data[k] == Some(t)
      case Ok(None) => data[k] == vars[k].data
      case Err(_) => false
  }

  /** The inputs of k read the same data in two columns that agree on them. */
  lemma InputsWithUnchanged(vars: seq<Variable>, data: seq<Option<Tensor>>, data': seq<Option<Tensor>>, k: nat)
    requires Indexed(vars) && |data| == |vars| == |data'| && k < |vars|
    requires forall i | 0 <= i < |vars[k].inputs| :: data'[vars[k].inputs[i]] == data[vars[k].inputs[i]]
    ensures InputsWith(vars, data, k) == InputsWith(vars, data', k)
  {
  }

  /** In a topological order the inputs of the variable at position p sit at earlier
      positions. */
  lemma InputsComeEarlier(vars: seq<Variable>, order: seq<nat>, p: nat, i: nat) returns (q: nat)
    requires Indexed(vars) && Wired(vars) && Permutation(order, |vars|)
    requires TopologicallyOrdered(vars, order)
    requires p < |order| && i in vars[order[p]].inputs
    ensures q < p && order[q] == i
  {
    assert i < |vars| && order[p] in vars[i].consumers;
    assert i in order;
    q :| 0 <= q < |order| && order[q] == i;
  }

  /** In a topological order, no input of the variable at position p is the variable at
      position n - 1 >= p. */
  lemma InputsBefore(vars: seq<Variable>, order: seq<nat>, p: nat, n: nat)
    requires Indexed(vars) && Wired(vars) && Permutation(order, |vars|)
    requires TopologicallyOrdered(vars, order)
    requires p < n <= |order|
    ensures forall j | 0 <= j < |vars[order[p]].inputs| :: vars[order[p]].inputs[j] != order[n - 1]
  {
    forall j | 0 <= j < |vars[order[p]].inputs|
      ensures vars[order[p]].inputs[j] != order[n - 1]
    {
      var q := InputsComeEarlier(vars, order, p, vars[order[p]].inputs[j]);
    }
  }

  /** A step on another variable x, none of whose inputs is x, keeps variable k evaluated. */
  lemma StepKeepsEvaluated(vars: seq<Variable>, data: seq<Option<Tensor>>, x: nat, k: nat, eval: Effect)
    requires Indexed(vars) && |data| == |vars| && x < |vars| && k < |vars| && k != x
    requires forall j | 0 <= j < |vars[k].inputs| :: vars[k].inputs[j] != x
    requires Evaluated(vars, data, k, eval)
    ensures Evaluated(vars, Step(vars, data, x, eval).0, k, eval)
  {
    InputsWithUnchanged(vars, data, Step(vars, data, x, eval).0, k);
  }

  /** A step on x that passes, where x reads nothing it writes and still holds its original
      data, leaves x evaluated. */
  lemma StepEvaluates(vars: seq<Variable>, data: seq<Option<Tensor>>, x: nat, eval: Effect)
    requires Indexed(vars) && |data| == |vars| && x < |vars|
    requires forall j | 0 <= j < |vars[x].inputs| :: vars[x].inputs[j] != x
    requires data[x] == vars[x].data && Step(vars, data, x, eval).1 == Pass
    ensures Evaluated(vars, Step(vars, data, x, eval).0, x, eval)
  {
    InputsWithUnchanged(vars, data, Step(vars, data, x, eval).0, x);
  }

  /** The step on the variable at position m keeps the variables at earlier positions
      evaluated and evaluates that variable. */
  lemma StepExtendsEvaluated(vars: seq<Variable>, order: seq<nat>, m: nat, data: seq<Option<Tensor>>, eval: Effect)
    requires Indexed(vars) && Wired(vars) && Permutation(order, |vars|)
    requires TopologicallyOrdered(vars, order) && m < |order| && |data| == |vars|
    requires data[order[m]] == vars[order[m]].data
    requires Step(vars, data, order[m], eval).1 == Pass
    requires forall p | 0 <= p < m :: Evaluated(vars, data, order[p], eval)
    ensures forall p | 0 <= p <= m :: Evaluated(vars, Step(vars, data, order[m], eval).0, order[p], eval)
  {
    var x := order[m];
    forall p | 0 <= p <= m
      ensures Evaluated(vars, Step(vars, data, x, eval).0, order[p], eval)
    {
      InputsBefore(vars, order, p, m + 1);
      if p < m {
        StepKeepsEvaluated(vars, data, x, order[p], eval);
      } else {
        StepEvaluates(vars, data, x, eval);
      }
    }
  }

  /** After the n-th iteration of a pass that has not failed, each variable visited so far
      is evaluated against the current data. */
  lemma {:induction false} RunEvaluates(vars: seq<Variable>, order: seq<nat>, n: nat, eval: Effect)
    requires Indexed(vars) && Wired(vars) && Permutation(order, |vars|)
    requires TopologicallyOrdered(vars, order) && n <= |order|
    requires Run(vars, order, n, eval).1 == Pass
    ensures forall p | 0 <= p < n :: Evaluated(vars, Run(vars, order, n, eval).0, order[p], eval)
  {
    if n > 0 {
      var m := n - 1;
      RunPassPrefix(vars, order, m, n, eval);
      RunEvaluates(vars, order, m, eval);
      RunNext(vars, order, m, eval);
      var data := Run(vars, order, m, eval).0;
      assert order[m] !in order[..m];
      StepExtendsEvaluated(vars, order, m, data, eval);
    }
  }

  /** Where a permutation lists an id. */
  lemma Position(order: seq<nat>, n: nat, k: nat) returns (p: nat)
    requires Permutation(order, n) && k < n
    ensures p < |order| && order[p] == k
  {
    assert k in order;
    p :| 0 <= p < |order| && order[p] == k;
  }

  /** A forward pass over a topological order of a consistently wired graph that completes
      leaves every variable evaluated against the final data: each operation's output agrees
      with the data its inputs end up holding. */
  lemma ForwardEvaluatesAll(vars: seq<Variable>, order: seq<nat>, eval: Effect)
    requires Indexed(vars) && Wired(vars) && Permutation(order, |vars|)
    requires TopologicallyOrdered(vars, order)
    requires Run(vars, order, |order|, eval).1 == Pass
    ensures forall k | 0 <= k < |vars| :: Evaluated(vars, Run(vars, order, |order|, eval).0, k, eval)
  {
    RunEvaluates(vars, order, |order|, eval);
    forall k | 0 <= k < |vars|
      ensures Evaluated(vars, Run(vars, order, |order|, eval).0, k, eval)
    {
      var p := Position(order, |vars|, k);
    }
  }
}

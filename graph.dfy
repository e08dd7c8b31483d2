/** The computational graph class of graph.h: an arena of variables indexed by id and the
    list of output ids whose gradient is seeded with ones. Its passes are specified by the
    value functions of ForwardPass and Backpropagation, instantiated with the operations'
    dispatch. */
module Graphs {
  import opened Failures
  import opened Tensors
  import opened Variables
  import opened GraphStructure
  import TopologicalSort
  import Operations
  import ForwardPass
  import Backpropagation

  class Graph {
    /** __variables, by id. */
    var variables: seq<Variable>
    /** __outputs, as ids. */
    var outputs: seq<nat>

    /** Every variable sits at its id with its edges inside the arena, and every output names
        a variable. */
    ghost predicate Valid()
      reads this
    {
      Indexed(variables) && Backpropagation.InRange(outputs, |variables|)
    }

    constructor ()
      ensures variables == [] && outputs == [] && Valid()
    {
      variables := [];
      outputs := [];
    }

    /** add_variable: the variable is appended and handed back. Its id must be its position
        and its edges must name variables of the graph (itself included). */
    method AddVariable(v: Variable) returns (added: Variable)
      requires Valid() && v.id == |variables|
      requires forall i | 0 <= i < |v.inputs| :: v.inputs[i] <= |variables|
      requires forall i | 0 <= i < |v.consumers| :: v.consumers[i] <= |variables|
      modifies this
      ensures Valid() && variables == old(variables) + [v] && outputs == old(outputs)
      ensures added == v
    {
      variables := variables + [v];
      added := v;
    }

    /** add_output: the variable joins the outputs; the result is its index there. */
    method AddOutput(k: nat) returns (index: nat)
      requires Valid() && k < |variables|
      modifies this
      ensures Valid() && outputs == old(outputs) + [k] && variables == old(variables)
      ensures index == |old(outputs)| && outputs[index] == k
    {
      outputs := outputs + [k];
      index := |outputs| - 1;
    }

    /** get_output(index): the data pointer of the index-th output, which may be null; an
        index past the outputs is read with an unchecked subscript, which is undefined. */
    method GetOutput(index: nat) returns (r: Result<Option<Tensor>>)
      requires Valid()
      ensures index >= |outputs| ==> r == Err(Error(Undefined, NoSuchOutput))
      ensures index < |outputs| ==> r == Ok(variables[outputs[index]].data)
    {
      if index >= |outputs| {
        return Err(Error(Undefined, NoSuchOutput));
      }
      return Ok(variables[outputs[index]].data);
    }

    /** get_variables. */
    method GetVariables() returns (vars: seq<Variable>)
      ensures vars == variables
    {
      vars := variables;
    }

    /** `get_consumers().push_back(c)` on variable k. */
    method AddConsumer(k: nat, c: nat)
      requires Valid() && k < |variables| && c < |variables|
      modifies this
      ensures Valid() && outputs == old(outputs) && |variables| == |old(variables)|
      ensures variables == old(variables)[k := old(variables)[k].(consumers := old(variables)[k].consumers + [c])]
    {
      variables := variables[k := variables[k].(consumers := variables[k].consumers + [c])];
    }

    /** `get_inputs().push_back(i)` on variable k. */
    method AddInput(k: nat, i: nat)
      requires Valid() && k < |variables| && i < |variables|
      modifies this
      ensures Valid() && outputs == old(outputs) && |variables| == |old(variables)|
      ensures variables == old(variables)[k := old(variables)[k].(inputs := old(variables)[k].inputs + [i])]
    {
      variables := variables[k := variables[k].(inputs := variables[k].inputs + [i])];
    }

    /** `get_data() = t` on variable k. */
    method SetData(k: nat, t: Option<Tensor>)
      requires Valid() && k < |variables|
      modifies this
      ensures Valid() && outputs == old(outputs)
      ensures variables == old(variables)[k := old(variables)[k].(data := t)]
    {
      variables := variables[k := variables[k].(data := t)];
    }

    /** __topo_sort: every id once; on an acyclic graph every variable before its
        consumers. */
    method TopoSort() returns (order: seq<nat>)
      requires Valid()
      ensures Permutation(order, |variables|)
      ensures Acyclic(variables) ==> TopologicallyOrdered(variables, order)
    {
      order := TopologicalSort.TopoSort(variables);
    }

    /** One iteration of forward on variable k: run its operation's `f` on its inputs and,
        when `f` produced a tensor, store it as the variable's data. */
    method ForwardStep(k: nat, ghost vars0: seq<Variable>, ghost data: seq<Option<Tensor>>) returns (o: Outcome)
      requires Indexed(vars0) && |data| == |vars0| && k < |vars0|
      requires variables == ForwardPass.WithData(vars0, data)
      modifies this
      ensures var step := ForwardPass.Step(vars0, data, k, Operations.Apply);
        variables == ForwardPass.WithData(vars0, step.0) && o == step.1
      ensures outputs == old(outputs)
    {
      var op := variables[k].op;
      if op.None? {
        return Pass;
      }
      ForwardPass.InputsWithIsInputsOf(vars0, data, k);
      var r := Operations.RunForward(op.value, InputsOf(variables, k));
      if r.Err? {
        return Fail(r.error);
      }
      if r.value.Some? {
        ForwardPass.WithDataUpdate(vars0, data, k, r.value);
        variables := variables[k := variables[k].(data := r.value)];
      }
      return Pass;
    }

    /** The loop of forward over a given order: one step per variable, stopping at the first
        exception. */
    method RunInOrder(sorted: seq<nat>) returns (o: Outcome)
      requires Valid() && ForwardPass.InRange(sorted, |variables|)
      modifies this
      ensures var run := ForwardPass.Run(old(variables), sorted, |sorted|, Operations.Apply);
        variables == ForwardPass.WithData(old(variables), run.0) && o == run.1
      ensures outputs == old(outputs)
    {
      ghost var vars0 := variables;
      ForwardPass.WithOwnData(vars0);
      for i := 0 to |sorted|
        invariant ForwardPass.Run(vars0, sorted, i, Operations.Apply).1 == Pass
        invariant variables == ForwardPass.WithData(vars0, ForwardPass.Run(vars0, sorted, i, Operations.Apply).0)
        invariant outputs == old(outputs)
      {
        ForwardPass.RunNext(vars0, sorted, i, Operations.Apply);
        o := ForwardStep(sorted[i], vars0, ForwardPass.Run(vars0, sorted, i, Operations.Apply).0);
        if o.Fail? {
          ForwardPass.RunFailureSticks(vars0, sorted, i + 1, |sorted|, Operations.Apply);
          return;
        }
      }
      return Pass;
    }

    /** forward: run `f` of every variable with an operation, in topological order. The pass
        changes only the data of variables; an exception stops it where it is. When it
        completes on an acyclic, consistently wired graph, every operation's output agrees
        with the final data of its inputs. */
    method Forward() returns (o: Outcome, ghost order: seq<nat>)
      requires Valid()
      modifies this
      ensures Valid() && outputs == old(outputs)
      ensures Permutation(order, |variables|)
      ensures Acyclic(old(variables)) ==> TopologicallyOrdered(old(variables), order)
      ensures ForwardPass.InRange(order, |old(variables)|)
      ensures var run := ForwardPass.Run(old(variables), order, |order|, Operations.Apply);
        variables == ForwardPass.WithData(old(variables), run.0) && o == run.1
      ensures o.Pass? && Acyclic(old(variables)) && ForwardPass.Wired(old(variables)) ==>
        forall k | 0 <= k < |variables| ::
          ForwardPass.Evaluated(old(variables), ForwardPass.DataColumn(variables), k, Operations.Apply)
    {
      ghost var vars0 := variables;
      var sorted := TopologicalSort.TopoSort(variables);
      order := sorted;
      assert ForwardPass.InRange(order, |vars0|);
      o := RunInOrder(sorted);
      ghost var final := ForwardPass.Run(vars0, order, |order|, Operations.Apply).0;
      ForwardPass.WithDataIndexed(vars0, final);
      ForwardPass.DataColumnOfWithData(vars0, final);
      if o.Pass? && Acyclic(vars0) && ForwardPass.Wired(vars0) {
        ForwardPass.ForwardEvaluatesAll(vars0, order, Operations.Apply);
      }
    }

    /** build_grad(focus, grad_table), with the table passed in and handed back. */
    method BuildGrad(focus: nat, table: Backpropagation.Table, ghost rank: seq<nat>) returns (r: Result<Backpropagation.Table>)
      requires Valid() && Ranked(variables, rank) && focus < |variables| && |table| == |variables|
      ensures r == Backpropagation.BuildGrad(variables, rank, Operations.Gradient, focus, table)
      decreases rank[focus], 2
    {
      if table[focus].Some? {
        return Ok(table);
      }
      var consumers := variables[focus].consumers;
      if |consumers| == 0 {
        return Err(Error(RuntimeError, NoConsumers));
      }
      var data := variables[focus].data;
      if data.None? {
        return Err(Error(Undefined, MissingData));
      }
      var shape := data.value.shape;
      if |shape| == 0 {
        return Err(Error(RuntimeError, NoData));
      }
      var swept := SweepAll(focus, shape, table, rank);
      if swept.Err? {
        return Err(swept.error);
      }
      var (current, acc) := swept.value;
      return Ok(current[focus := acc]);
    }

    /** The loop of build_grad over the consumers of the focus, stopping at the first
        exception; the result is the table and the running sum. */
    method SweepAll(focus: nat, shape: seq<nat>, table: Backpropagation.Table, ghost rank: seq<nat>)
      returns (r: Result<(Backpropagation.Table, Option<Tensor>)>)
      requires Valid() && Ranked(variables, rank) && focus < |variables| && |table| == |variables|
      ensures r == Backpropagation.Summed(Backpropagation.SweepConsumers(variables, rank, Operations.Gradient, focus, shape, |variables[focus].consumers|, table))
      decreases rank[focus], 1
    {
      var consumers := variables[focus].consumers;
      var current := table;
      var acc: Option<Tensor> := None;
      for i := 0 to |consumers|
        invariant Backpropagation.Summed(Backpropagation.SweepConsumers(variables, rank, Operations.Gradient, focus, shape, i, table))
          == Ok((current, acc))
      {
        var next := SweepOne(focus, shape, i, table, current, acc, rank);
        if next.Err? {
          Backpropagation.SweepFailureSticks(variables, rank, Operations.Gradient, focus, shape, i + 1, |consumers|, table);
          return next;
        }
        current, acc := next.value.0, next.value.1;
      }
      return Ok((current, acc));
    }

    /** One iteration of the loop of build_grad over the consumers of the focus: build the
        i-th consumer's entry, call its operation's bprop and fold the contribution into the
        running sum. */
    method SweepOne(focus: nat, shape: seq<nat>, i: nat, ghost table: Backpropagation.Table,
                    current: Backpropagation.Table, acc: Option<Tensor>, ghost rank: seq<nat>)
      returns (r: Result<(Backpropagation.Table, Option<Tensor>)>)
      requires Valid() && Ranked(variables, rank) && focus < |variables| && |table| == |variables|
      requires i < |variables[focus].consumers|
      requires Backpropagation.Summed(Backpropagation.SweepConsumers(variables, rank, Operations.Gradient, focus, shape, i, table))
        == Ok((current, acc))
      ensures r == Backpropagation.Summed(Backpropagation.SweepConsumers(variables, rank, Operations.Gradient, focus, shape, i + 1, table))
      decreases rank[focus], 0
    {
      var c := variables[focus].consumers[i];
      assert c in variables[focus].consumers;
      var built := BuildGrad(c, current, rank);
      if built.Err? {
        return Err(built.error);
      }
      var t := built.value;
      var op := variables[c].op;
      if op.None? {
        return Err(Error(Undefined, NullOperation));
      }
      var g := Operations.RunBackward(op.value, InputsOf(variables, c), variables[focus], t[c].value);
      if g.Err? {
        return Err(g.error);
      }
      if g.value.shape != shape {
        return Err(Error(RuntimeError, GradientShapeMismatch));
      }
      if acc.None? {
        return Ok((t, Some(g.value)));
      }
      // The running sum has the focus shape, so the "shapes do not match" check passes.
      Backpropagation.SweepSums(variables, rank, Operations.Gradient, focus, shape, i, table);
      assert acc.value.shape == g.value.shape;
      var sum := Backpropagation.Accumulate(acc.value, g.value);
      if sum.Err? {
        return Err(sum.error);
      }
      return Ok((t, Some(sum.value)));
    }

    /** One iteration of the seeding loop: the i-th output's entry becomes its seed. */
    method SeedOne(i: nat, table: Backpropagation.Table) returns (r: Result<Backpropagation.Table>)
      requires Valid() && i < |outputs|
      requires Backpropagation.Seeds(variables, outputs, i) == Ok(table)
      ensures r == Backpropagation.Seeds(variables, outputs, i + 1)
    {
      var id := outputs[i];
      var data := variables[id].data;
      if data.None? {
        return Err(Error(Undefined, MissingData));
      }
      var seed := Backpropagation.MakeSeed(data.value);
      if seed.Err? {
        return Err(seed.error);
      }
      return Ok(table[id := Some(seed.value)]);
    }

    /** The seeding loop of backprop: every output's entry becomes a tensor of its shape whose
        elements are ones. */
    method SeedTable() returns (r: Result<Backpropagation.Table>)
      requires Valid()
      ensures r == Backpropagation.Seeds(variables, outputs, |outputs|)
    {
      var table: Backpropagation.Table := seq(|variables|, _ => None);
      for i := 0 to |outputs|
        invariant Backpropagation.Seeds(variables, outputs, i) == Ok(table)
      {
        var next := SeedOne(i, table);
        if next.Err? {
          Backpropagation.SeedsFailureSticks(variables, outputs, i + 1, |outputs|);
          return next;
        }
        table := next.value;
      }
      return Ok(table);
    }

    /** The target loop of backprop: build_grad on every target in turn, threading the
        table. */
    method BuildTargets(targets: seq<nat>, seeded: Backpropagation.Table, ghost rank: seq<nat>) returns (r: Result<Backpropagation.Table>)
      requires Valid() && Ranked(variables, rank) && Backpropagation.InRange(targets, |variables|)
      requires |seeded| == |variables|
      ensures r == Backpropagation.BuildAll(variables, rank, Operations.Gradient, targets, |targets|, seeded)
    {
      var table := seeded;
      for i := 0 to |targets|
        invariant Backpropagation.BuildAll(variables, rank, Operations.Gradient, targets, i, seeded) == Ok(table)
      {
        var built := BuildGrad(targets[i], table, rank);
        if built.Err? {
          Backpropagation.BuildAllFailureSticks(variables, rank, Operations.Gradient, targets, i + 1, |targets|, seeded);
          return Err(built.error);
        }
        table := built.value;
      }
      return Ok(table);
    }

    /** backprop(targets): seed the outputs, build every target's entry, and return the
        targets' entries in order. The graph must be ranked for build_grad to terminate. */
    method Backprop(targets: seq<nat>, ghost rank: seq<nat>) returns (r: Result<seq<Tensor>>)
      requires Valid() && Ranked(variables, rank) && Backpropagation.InRange(targets, |variables|)
      ensures r == Backpropagation.Backprop(variables, rank, Operations.Gradient, outputs, targets)
    {
      var seeded := SeedTable();
      if seeded.Err? {
        return Err(seeded.error);
      }
      var built := BuildTargets(targets, seeded.value, rank);
      if built.Err? {
        return Err(built.error);
      }
      var table := built.value;
      Backpropagation.BuildAllGrows(variables, rank, Operations.Gradient, targets, |targets|, seeded.value);
      var grads: seq<Tensor> := [];
      for i := 0 to |targets|
        invariant |grads| == i && forall j | 0 <= j < i :: grads[j] == table[targets[j]].value
      {
        grads := grads + [table[targets[i]].value];
      }
      assert grads == seq(|targets|, i requires 0 <= i < |targets| => table[targets[i]].value);
      return Ok(grads);
    }
  }
}

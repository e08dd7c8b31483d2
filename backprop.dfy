/** The backward pass of the graph (graph.h:125-196): a gradient table with one entry per
    variable id is seeded with ones at the outputs, and build_grad fills in the entry of a
    variable by first building the entries of its consumers and then summing what each
    consumer's `bprop` hands back for it. The table is memoised: an entry, once set, is never
    replaced. */
module Backpropagation {
  import opened Failures
  import opened Tensors
  import opened Variables
  import opened GraphStructure

  /** What a consumer's `bprop(inputs, focus, gradient)` returns: the contribution of that
      consumer to the gradient of `focus`, or the failure it throws. The graph instantiates
      it with the operations' dispatch (Operations.Gradient). */
  type Backward = (Operation, seq<Variable>, Variable, Tensor) -> Result<Tensor>

  /** The gradient table: entry k is the gradient of variable k, or null. */
  type Table = seq<Option<Tensor>>

  /** Every entry of `before` is in `after`, unchanged. */
  predicate Extends(before: Table, after: Table)
  {
    |before| == |after| && forall k | 0 <= k < |before| && before[k].Some? :: after[k] == before[k]
  }

  lemma ExtendsTransitive(a: Table, b: Table, c: Table)
    requires Extends(a, b) && Extends(b, c)
    ensures Extends(a, c)
  {
  }

  /** Every gradient in the table has the shape of its variable's data. */
  predicate Shaped(vars: seq<Variable>, table: Table)
  {
    && |table| == |vars|
    && forall k | 0 <= k < |vars| && table[k].Some? ::
         vars[k].data.Some? && table[k].value.shape == vars[k].data.value.shape
  }

  // ---------------------------------------------------------------------------
  // Seeding the outputs

  /** The seed of an output whose data is d: a fresh zero tensor of d's shape whose first
      size() elements are set to 1. The fresh buffer holds product(shape) elements; writing
      past its end, when d holds more elements than its shape describes, is undefined. */
  function SeedOf(d: Tensor): (r: Result<Tensor>)
    ensures r.Ok? <==> |d.data| <= Product(d.shape)
    ensures r.Err? ==> r.error == Error(Undefined, DataSizeMismatch)
    ensures r.Ok? ==> && r.value.shape == d.shape && WellFormed(r.value)
                      && forall k | 0 <= k < |r.value.data| :: r.value.data[k] == if k < |d.data| then 1.0 else 0.0
  {
    if |d.data| > Product(d.shape) then Err(Error(Undefined, DataSizeMismatch))
    else Ok(Tensor(d.shape, seq(Product(d.shape), k requires 0 <= k < Product(d.shape) =>
      if k < |d.data| then 1.0 else 0.0)))
  }

  /** A well-formed output is seeded with all ones: the derivative of a variable with respect
      to itself. */
  lemma SeedOfWellFormed(d: Tensor)
    requires WellFormed(d)
    ensures SeedOf(d) == Ok(Filled(d.shape, 1.0))
  {
    assert SeedOf(d).value.data == Filled(d.shape, 1.0).data;
  }

  /** The inner loop that writes the ones, over a fresh zero tensor of the output's shape. */
  method MakeSeed(d: Tensor) returns (r: Result<Tensor>)
    ensures r == SeedOf(d)
  {
    var seed := Filled(d.shape, 0.0).data;
    for i := 0 to |d.data|
      invariant |seed| == Product(d.shape)
      invariant i > 0 ==> i <= |seed|
      invariant forall k | 0 <= k < |seed| :: seed[k] == if k < i then 1.0 else 0.0
    {
      if i >= |seed| {
        return Err(Error(Undefined, DataSizeMismatch));
      }
      seed := seed[i := 1.0];
    }
    assert |d.data| <= |seed|;
    r := Ok(Tensor(d.shape, seed));
    assert seed == SeedOf(d).value.data;
  }

  /** Every listed output names a variable. */
  predicate InRange(ids: seq<nat>, n: nat)
  {
    forall i | 0 <= i < |ids| :: ids[i] < n
  }

  /** The table after the seeding loop has run over the first n outputs: each output's entry
      is its seed, every other entry is null. The data of an output is dereferenced, so a
      null one is undefined. */
  function Seeds(vars: seq<Variable>, outputs: seq<nat>, n: nat): (r: Result<Table>)
    requires InRange(outputs, |vars|) && n <= |outputs|
    ensures r.Ok? ==> |r.value| == |vars|
  {
    if n == 0 then Ok(seq(|vars|, _ => None))
    else
      var table :- Seeds(vars, outputs, n - 1);
      var d :- DataOf(vars[outputs[n - 1]]);
      var seed :- SeedOf(d);
      Ok(table[outputs[n - 1] := Some(seed)])
  }

  /** A table seeded over the first n outputs holds an entry exactly for those outputs, and
      that entry is the seed of the output's data. */
  lemma {:induction false} SeedsSeeded(vars: seq<Variable>, outputs: seq<nat>, n: nat)
    requires InRange(outputs, |vars|) && n <= |outputs| && Seeds(vars, outputs, n).Ok?
    ensures var table := Seeds(vars, outputs, n).value;
      && (forall k | 0 <= k < |vars| :: table[k].Some? <==> k in outputs[..n])
      && (forall k | 0 <= k < |vars| && table[k].Some? ::
            vars[k].data.Some? && SeedOf(vars[k].data.value) == Ok(table[k].value))
  {
    if n > 0 {
      var m := n - 1;
      SeedsSeeded(vars, outputs, m);
      assert outputs[..n] == outputs[..m] + [outputs[m]];
    }
  }

  lemma {:induction false} SeedsFailureSticks(vars: seq<Variable>, outputs: seq<nat>, n: nat, m: nat)
    requires InRange(outputs, |vars|) && n <= m <= |outputs| && Seeds(vars, outputs, n).Err?
    ensures Seeds(vars, outputs, m) == Seeds(vars, outputs, n)
  {
    forall i | n <= i < m
      ensures Seeds(vars, outputs, i).Err? ==> Seeds(vars, outputs, i + 1) == Seeds(vars, outputs, i)
    {
      if Seeds(vars, outputs, i).Err? {
        SeedsStops(vars, outputs, i);
      }
    }
    var runs := seq(m + 1, i requires 0 <= i <= m => Seeds(vars, outputs, i));
    FailureSticks(runs, (r: Result<Table>) => r.Err?, n, m);
  }

  /** The output after a failed one is not seeded. */
  lemma SeedsStops(vars: seq<Variable>, outputs: seq<nat>, i: nat)
    requires InRange(outputs, |vars|) && i < |outputs| && Seeds(vars, outputs, i).Err?
    ensures Seeds(vars, outputs, i + 1) == Seeds(vars, outputs, i)
  {
  }

  /** A seeded table gives every seeded variable the shape of its data. */
  lemma SeedsShaped(vars: seq<Variable>, outputs: seq<nat>)
    requires InRange(outputs, |vars|) && Seeds(vars, outputs, |outputs|).Ok?
    ensures Shaped(vars, Seeds(vars, outputs, |outputs|).value)
  {
    SeedsSeeded(vars, outputs, |outputs|);
  }

  // ---------------------------------------------------------------------------
  // Summing the contributions

  /** The accumulation loop `_gradient->data()[j] += gradient->data()[j]` over the
      contribution's elements. data() of tensor.h throws invalid_argument for a tensor whose
      buffer does not match its shape; a contribution without elements leaves the sum as it
      is without calling it. */
  function Sum(acc: Tensor, g: Tensor): (r: Result<Tensor>)
    requires acc.shape == g.shape
    ensures r.Err? <==> |g.data| > 0 && !(WellFormed(acc) && WellFormed(g))
    ensures r.Err? ==> r.error == Error(InvalidArgument, DataSizeMismatch)
    ensures r.Ok? ==> r.value.shape == acc.shape
    ensures r.Ok? && WellFormed(acc) && WellFormed(g) ==>
      && WellFormed(r.value)
      && forall k | 0 <= k < |r.value.data| :: r.value.data[k] == acc.data[k] + g.data[k]
  {
    if |g.data| == 0 then Ok(acc)
    else if !WellFormed(acc) || !WellFormed(g) then Err(Error(InvalidArgument, DataSizeMismatch))
    else Ok(Tensor(acc.shape, seq(|acc.data|, k requires 0 <= k < |acc.data| => acc.data[k] + g.data[k])))
  }

  /** The order in which two well-formed contributions are added does not matter. */
  lemma SumCommutes(a: Tensor, b: Tensor)
    requires a.shape == b.shape && WellFormed(a) && WellFormed(b)
    ensures Sum(a, b).Ok? && Sum(b, a).Ok? && Sum(a, b).value.data == Sum(b, a).value.data
  {
    if |b.data| > 0 {
      assert Sum(a, b).value.data == Sum(b, a).value.data;
    }
  }

  /** Adding the zero gradient a loss hands back leaves the sum unchanged. */
  lemma SumZero(a: Tensor)
    requires WellFormed(a)
    ensures Sum(a, Filled(a.shape, 0.0)) == Ok(a)
  {
    var z := Filled(a.shape, 0.0);
    if |z.data| > 0 {
      assert Sum(a, z).value.data == a.data;
    }
  }

  /** The accumulation loop, element by element. */
  method Accumulate(acc: Tensor, g: Tensor) returns (r: Result<Tensor>)
    requires acc.shape == g.shape
    ensures r == Sum(acc, g)
  {
    var data := acc.data;
    for j := 0 to |g.data|
      invariant |data| == |acc.data|
      invariant j > 0 ==> WellFormed(acc) && WellFormed(g)
      invariant forall k | 0 <= k < |data| :: data[k] == if k < j then acc.data[k] + g.data[k] else acc.data[k]
    {
      if !WellFormed(acc) || !WellFormed(g) {
        return Err(Error(InvalidArgument, DataSizeMismatch));
      }
      data := data[j := data[j] + g.data[j]];
    }
    r := Ok(Tensor(acc.shape, data));
    if |g.data| > 0 {
      assert data == Sum(acc, g).value.data;
    } else {
      assert data == acc.data;
    }
  }

  /** One consumer's contribution g folded into the running sum `_gradient` of a focus whose
      data has the given shape: g must have that shape; the first contribution becomes the
      sum and later ones are added to it. */
  function Contribute(shape: seq<nat>, acc: Option<Tensor>, g: Tensor): (r: Result<Tensor>)
    ensures r.Ok? ==> r.value.shape == shape
    ensures g.shape != shape ==> r == Err(Error(RuntimeError, GradientShapeMismatch))
  {
    if g.shape != shape then Err(Error(RuntimeError, GradientShapeMismatch))
    else if acc.None? then Ok(g)
    else if acc.value.shape != g.shape then Err(Error(RuntimeError, GradientShapesDiffer))
    else Sum(acc.value, g)
  }

  /** While the running sum has the focus shape, which every contribution that passed the
      first check gives it, the "gradient shapes do not match" check cannot fail. */
  lemma ShapesNeverDiffer(shape: seq<nat>, acc: Option<Tensor>, g: Tensor)
    requires acc.Some? ==> acc.value.shape == shape
    ensures Contribute(shape, acc, g) != Err(Error(RuntimeError, GradientShapesDiffer))
  {
  }

  /** Element k summed over a list of contributions. */
  function ElementSum(parts: seq<Tensor>, k: nat): real
    requires forall i | 0 <= i < |parts| :: k < |parts[i].data|
  {
    if |parts| == 0 then 0.0 else ElementSum(parts[..|parts| - 1], k) + parts[|parts| - 1].data[k]
  }

  /** All contributions are well-formed. */
  predicate AllWellFormed(parts: seq<Tensor>)
  {
    forall i | 0 <= i < |parts| :: WellFormed(parts[i])
  }

  // ---------------------------------------------------------------------------
  // build_grad

  /** The state of the loop over the consumers of a focus: the table so far, the running sum
      (null before the first consumer) and the contributions summed so far. */
  datatype Swept = Swept(table: Table, acc: Option<Tensor>, parts: seq<Tensor>)

  /** Graph::build_grad(focus, grad_table). A memoised entry is returned as it is. Otherwise
      the focus must have consumers and data of dimensionality at least one; the sum over its
      consumers becomes its entry. The recursion follows consumer edges, so it terminates on
      a ranked graph. */
  function BuildGrad(vars: seq<Variable>, rank: seq<nat>, grad: Backward, focus: nat, table: Table): (r: Result<Table>)
    requires Indexed(vars) && Ranked(vars, rank) && focus < |vars| && |table| == |vars|
    ensures r.Ok? ==> |r.value| == |table| && r.value[focus].Some?
    decreases rank[focus], 1, 0
  {
    if table[focus].Some? then Ok(table)
    else if |vars[focus].consumers| == 0 then Err(Error(RuntimeError, NoConsumers))
    else
      var data :- DataOf(vars[focus]);
      if |data.shape| == 0 then Err(Error(RuntimeError, NoData))
      else
        var s :- SweepConsumers(vars, rank, grad, focus, data.shape, |vars[focus].consumers|, table);
        Ok(s.table[focus := s.acc])
  }

  /** The checks build_grad makes before it sweeps: a memoised focus leaves the table as it
      is, and a focus without consumers or with dimensionless data is refused. */
  lemma BuildGradChecks(vars: seq<Variable>, rank: seq<nat>, grad: Backward, focus: nat, table: Table)
    requires Indexed(vars) && Ranked(vars, rank) && focus < |vars| && |table| == |vars|
    ensures table[focus].Some? ==> BuildGrad(vars, rank, grad, focus, table) == Ok(table)
    ensures table[focus].None? && |vars[focus].consumers| == 0 ==>
      BuildGrad(vars, rank, grad, focus, table) == Err(Error(RuntimeError, NoConsumers))
    ensures table[focus].None? && |vars[focus].consumers| > 0 && vars[focus].data.None? ==>
      BuildGrad(vars, rank, grad, focus, table) == Err(Error(Undefined, MissingData))
    ensures table[focus].None? && |vars[focus].consumers| > 0 && vars[focus].data.Some?
            && |vars[focus].data.value.shape| == 0 ==>
      BuildGrad(vars, rank, grad, focus, table) == Err(Error(RuntimeError, NoData))
  {
  }

  /** The loop of build_grad over the first n consumers of the focus: build the consumer's
      entry, call its operation's bprop (a consumer without an operation is a null
      dereference) and fold the contribution into the running sum. */
  function SweepConsumers(vars: seq<Variable>, rank: seq<nat>, grad: Backward, focus: nat,
                          shape: seq<nat>, n: nat, table: Table): (r: Result<Swept>)
    requires Indexed(vars) && Ranked(vars, rank) && focus < |vars| && |table| == |vars|
    requires n <= |vars[focus].consumers|
    ensures r.Ok? ==> |r.value.table| == |table|
    decreases rank[focus], 0, n
  {
    if n == 0 then Ok(Swept(table, None, []))
    else
      var s :- SweepConsumers(vars, rank, grad, focus, shape, n - 1, table);
      var c := vars[focus].consumers[n - 1];
      assert c in vars[focus].consumers;
      var t :- BuildGrad(vars, rank, grad, c, s.table);
      if vars[c].op.None? then Err(Error(Undefined, NullOperation))
      else
        var g :- grad(vars[c].op.value, InputsOf(vars, c), vars[focus], t[c].value);
        var acc :- Contribute(shape, s.acc, g);
        Ok(Swept(t, Some(acc), s.parts + [g]))
  }

  /** build_grad only adds entries to the table, and only entries shaped like their
      variable's data. */
  lemma {:induction false} BuildGradGrows(vars: seq<Variable>, rank: seq<nat>, grad: Backward, focus: nat, table: Table)
    requires Indexed(vars) && Ranked(vars, rank) && focus < |vars| && |table| == |vars|
    requires BuildGrad(vars, rank, grad, focus, table).Ok?
    ensures Extends(table, BuildGrad(vars, rank, grad, focus, table).value)
    ensures Shaped(vars, table) ==> Shaped(vars, BuildGrad(vars, rank, grad, focus, table).value)
    decreases rank[focus], 1, 0
  {
    if table[focus].None? {
      var shape := vars[focus].data.value.shape;
      var n := |vars[focus].consumers|;
      SweepGrows(vars, rank, grad, focus, shape, n, table);
      SweepSums(vars, rank, grad, focus, shape, n, table);
    }
  }

  /** The loop over the consumers only adds entries to the table, shaped like their
      variable's data. */
  lemma {:induction false} SweepGrows(vars: seq<Variable>, rank: seq<nat>, grad: Backward, focus: nat,
                                      shape: seq<nat>, n: nat, table: Table)
    requires Indexed(vars) && Ranked(vars, rank) && focus < |vars| && |table| == |vars|
    requires n <= |vars[focus].consumers| && SweepConsumers(vars, rank, grad, focus, shape, n, table).Ok?
    ensures Extends(table, SweepConsumers(vars, rank, grad, focus, shape, n, table).value.table)
    ensures Shaped(vars, table) ==> Shaped(vars, SweepConsumers(vars, rank, grad, focus, shape, n, table).value.table)
    decreases rank[focus], 0, n
  {
    if n > 0 {
      var m := n - 1;
      SweepGrows(vars, rank, grad, focus, shape, m, table);
      var s := SweepConsumers(vars, rank, grad, focus, shape, m, table).value;
      var c := vars[focus].consumers[m];
      assert c in vars[focus].consumers;
      BuildGradGrows(vars, rank, grad, c, s.table);
      ExtendsTransitive(table, s.table, BuildGrad(vars, rank, grad, c, s.table).value);
    }
  }

  /** After n consumers the loop holds n contributions, all shaped like the focus data, and a
      running sum present exactly when n > 0; when the contributions are well-formed the sum
      is their element-wise sum. */
  lemma {:induction false} SweepSums(vars: seq<Variable>, rank: seq<nat>, grad: Backward, focus: nat,
                                     shape: seq<nat>, n: nat, table: Table)
    requires Indexed(vars) && Ranked(vars, rank) && focus < |vars| && |table| == |vars|
    requires n <= |vars[focus].consumers| && SweepConsumers(vars, rank, grad, focus, shape, n, table).Ok?
    ensures var s := SweepConsumers(vars, rank, grad, focus, shape, n, table).value;
      && |s.parts| == n && (s.acc.Some? <==> n > 0)
      && (forall i | 0 <= i < n :: s.parts[i].shape == shape)
      && (s.acc.Some? ==> s.acc.value.shape == shape)
      && (n > 0 && AllWellFormed(s.parts) ==>
            && WellFormed(s.acc.value)
            && |s.acc.value.data| == Product(shape)
            && forall k | 0 <= k < Product(shape) :: s.acc.value.data[k] == ElementSum(s.parts, k))
  {
    if n > 0 {
      var m := n - 1;
      SweepSums(vars, rank, grad, focus, shape, m, table);
      var s := SweepConsumers(vars, rank, grad, focus, shape, m, table).value;
      var c := vars[focus].consumers[m];
      var t := BuildGrad(vars, rank, grad, c, s.table).value;
      var g := grad(vars[c].op.value, InputsOf(vars, c), vars[focus], t[c].value).value;
      var acc := Contribute(shape, s.acc, g).value;
      SumStep(s.parts, s.acc, g, acc, shape);
    }
  }

  lemma {:induction false} SweepFailureSticks(vars: seq<Variable>, rank: seq<nat>, grad: Backward, focus: nat,
                                              shape: seq<nat>, n: nat, m: nat, table: Table)
    requires Indexed(vars) && Ranked(vars, rank) && focus < |vars| && |table| == |vars|
    requires n <= m <= |vars[focus].consumers|
    requires SweepConsumers(vars, rank, grad, focus, shape, n, table).Err?
    ensures SweepConsumers(vars, rank, grad, focus, shape, m, table) == SweepConsumers(vars, rank, grad, focus, shape, n, table)
  {
    forall i | n <= i < m
      ensures SweepConsumers(vars, rank, grad, focus, shape, i, table).Err? ==>
              SweepConsumers(vars, rank, grad, focus, shape, i + 1, table) == SweepConsumers(vars, rank, grad, focus, shape, i, table)
    {
      if SweepConsumers(vars, rank, grad, focus, shape, i, table).Err? {
        SweepStops(vars, rank, grad, focus, shape, i, table);
      }
    }
    var runs := seq(m + 1, i requires 0 <= i <= m => SweepConsumers(vars, rank, grad, focus, shape, i, table));
    FailureSticks(runs, (r: Result<Swept>) => r.Err?, n, m);
  }

  /** The table and the running sum of a loop state, or the failure that ended the loop. */
  function Summed(r: Result<Swept>): (q: Result<(Table, Option<Tensor>)>)
    ensures q.Ok? <==> r.Ok?
    ensures r.Err? ==> q.error == r.error
    ensures r.Ok? ==> q.value == (r.value.table, r.value.acc)
  {
    match r
    case Ok(s) => Ok((s.table, s.acc))
    case Err(e) => Err(e)
  }

  /** The consumer after a failed one is not looked at. */
  lemma SweepStops(vars: seq<Variable>, rank: seq<nat>, grad: Backward, focus: nat,
                   shape: seq<nat>, i: nat, table: Table)
    requires Indexed(vars) && Ranked(vars, rank) && focus < |vars| && |table| == |vars|
    requires i < |vars[focus].consumers|
    requires SweepConsumers(vars, rank, grad, focus, shape, i, table).Err?
    ensures SweepConsumers(vars, rank, grad, focus, shape, i + 1, table) == SweepConsumers(vars, rank, grad, focus, shape, i, table)
  {
  }

  /** Folding one more contribution keeps the running sum equal to the element sum. */
  lemma SumStep(parts: seq<Tensor>, acc: Option<Tensor>, g: Tensor, acc': Tensor, shape: seq<nat>)
    requires forall i | 0 <= i < |parts| :: parts[i].shape == shape
    requires acc.Some? <==> |parts| > 0
    requires acc.Some? && AllWellFormed(parts) ==>
      && WellFormed(acc.value) && acc.value.shape == shape
      && forall k | 0 <= k < Product(shape) :: acc.value.data[k] == ElementSum(parts, k)
    requires Contribute(shape, acc, g) == Ok(acc')
    ensures AllWellFormed(parts + [g]) ==>
      && WellFormed(acc') && |acc'.data| == Product(shape)
      && forall k | 0 <= k < Product(shape) :: acc'.data[k] == ElementSum(parts + [g], k)
  {
    var all := parts + [g];
    if AllWellFormed(all) {
      assert all[..|all| - 1] == parts && all[|parts|] == g;
      assert AllWellFormed(parts) && WellFormed(g) && g.shape == shape;
      forall k | 0 <= k < Product(shape)
        ensures acc'.data[k] == ElementSum(all, k)
      {
        assert ElementSum(all, k) == ElementSum(parts, k) + g.data[k];
        if acc.None? {
          assert parts == [];
        }
      }
    }
  }

  /** The gradient build_grad stores for a focus it had to compute is the element-wise sum
      of the contributions of its consumers, in consumer order, when they are all
      well-formed. */
  lemma StoredGradientIsSum(vars: seq<Variable>, rank: seq<nat>, grad: Backward, focus: nat, table: Table)
    requires Indexed(vars) && Ranked(vars, rank) && focus < |vars| && |table| == |vars|
    requires table[focus].None? && BuildGrad(vars, rank, grad, focus, table).Ok?
    ensures vars[focus].data.Some? && |vars[focus].consumers| > 0
    ensures var shape := vars[focus].data.value.shape;
      var s := SweepConsumers(vars, rank, grad, focus, shape, |vars[focus].consumers|, table);
      var stored := BuildGrad(vars, rank, grad, focus, table).value[focus];
      && s.Ok? && stored == s.value.acc && stored.Some?
      && |s.value.parts| == |vars[focus].consumers|
      && (forall i | 0 <= i < |s.value.parts| :: s.value.parts[i].shape == shape)
      && (AllWellFormed(s.value.parts) ==>
            && WellFormed(stored.value) && |stored.value.data| == Product(shape)
            && forall k | 0 <= k < Product(shape) :: stored.value.data[k] == ElementSum(s.value.parts, k))
  {
    var shape := vars[focus].data.value.shape;
    SweepSums(vars, rank, grad, focus, shape, |vars[focus].consumers|, table);
  }

  // ---------------------------------------------------------------------------
  // backprop

  /** The loop of backprop that builds the entries of the first n targets, in order. */
  function BuildAll(vars: seq<Variable>, rank: seq<nat>, grad: Backward, targets: seq<nat>, n: nat, table: Table): (r: Result<Table>)
    requires Indexed(vars) && Ranked(vars, rank) && InRange(targets, |vars|) && n <= |targets|
    requires |table| == |vars|
    ensures r.Ok? ==> |r.value| == |table|
  {
    if n == 0 then Ok(table)
    else
      var t :- BuildAll(vars, rank, grad, targets, n - 1, table);
      BuildGrad(vars, rank, grad, targets[n - 1], t)
  }

  lemma {:induction false} BuildAllFailureSticks(vars: seq<Variable>, rank: seq<nat>, grad: Backward, targets: seq<nat>,
                                                 n: nat, m: nat, table: Table)
    requires Indexed(vars) && Ranked(vars, rank) && InRange(targets, |vars|) && n <= m <= |targets|
    requires |table| == |vars| && BuildAll(vars, rank, grad, targets, n, table).Err?
    ensures BuildAll(vars, rank, grad, targets, m, table) == BuildAll(vars, rank, grad, targets, n, table)
  {
    forall i | n <= i < m
      ensures BuildAll(vars, rank, grad, targets, i, table).Err? ==>
              BuildAll(vars, rank, grad, targets, i + 1, table) == BuildAll(vars, rank, grad, targets, i, table)
    {
      if BuildAll(vars, rank, grad, targets, i, table).Err? {
        BuildAllStops(vars, rank, grad, targets, i, table);
      }
    }
    var runs := seq(m + 1, i requires 0 <= i <= m => BuildAll(vars, rank, grad, targets, i, table));
    FailureSticks(runs, (r: Result<Table>) => r.Err?, n, m);
  }

  /** The target after a failed one is not built. */
  lemma BuildAllStops(vars: seq<Variable>, rank: seq<nat>, grad: Backward, targets: seq<nat>, i: nat, table: Table)
    requires Indexed(vars) && Ranked(vars, rank) && InRange(targets, |vars|) && i < |targets|
    requires |table| == |vars| && BuildAll(vars, rank, grad, targets, i, table).Err?
    ensures BuildAll(vars, rank, grad, targets, i + 1, table) == BuildAll(vars, rank, grad, targets, i, table)
  {
  }

  /** The target loop only adds entries, shaped like their variable's data, and leaves an
      entry for every target it has built. */
  lemma {:induction false} BuildAllGrows(vars: seq<Variable>, rank: seq<nat>, grad: Backward, targets: seq<nat>, n: nat, table: Table)
    requires Indexed(vars) && Ranked(vars, rank) && InRange(targets, |vars|) && n <= |targets|
    requires |table| == |vars| && BuildAll(vars, rank, grad, targets, n, table).Ok?
    ensures var built := BuildAll(vars, rank, grad, targets, n, table).value;
      && Extends(table, built)
      && (forall i | 0 <= i < n :: built[targets[i]].Some?)
      && (Shaped(vars, table) ==> Shaped(vars, built))
  {
    if n > 0 {
      var m := n - 1;
      BuildAllGrows(vars, rank, grad, targets, m, table);
      var t := BuildAll(vars, rank, grad, targets, m, table).value;
      BuildGradGrows(vars, rank, grad, targets[m], t);
      ExtendsTransitive(table, t, BuildGrad(vars, rank, grad, targets[m], t).value);
    }
  }

  /** Graph::backprop(targets): seed the outputs, build the entry of every target, and
      return the targets' entries in order. */
  function Backprop(vars: seq<Variable>, rank: seq<nat>, grad: Backward, outputs: seq<nat>, targets: seq<nat>): (r: Result<seq<Tensor>>)
    requires Indexed(vars) && Ranked(vars, rank) && InRange(outputs, |vars|) && InRange(targets, |vars|)
    ensures r.Ok? ==> |r.value| == |targets|
  {
    var seeded :- Seeds(vars, outputs, |outputs|);
    var table :- BuildAll(vars, rank, grad, targets, |targets|, seeded);
    BuildAllGrows(vars, rank, grad, targets, |targets|, seeded);
    Ok(seq(|targets|, i requires 0 <= i < |targets| => table[targets[i]].value))
  }

  /** Every gradient backprop returns has the shape of its target's data. */
  lemma BackpropShapes(vars: seq<Variable>, rank: seq<nat>, grad: Backward, outputs: seq<nat>, targets: seq<nat>)
    requires Indexed(vars) && Ranked(vars, rank) && InRange(outputs, |vars|) && InRange(targets, |vars|)
    requires Backprop(vars, rank, grad, outputs, targets).Ok?
    ensures forall i | 0 <= i < |targets| ::
      && vars[targets[i]].data.Some?
      && Backprop(vars, rank, grad, outputs, targets).value[i].shape == vars[targets[i]].data.value.shape
  {
    var seeded := Seeds(vars, outputs, |outputs|).value;
    SeedsShaped(vars, outputs);
    BuildAllGrows(vars, rank, grad, targets, |targets|, seeded);
  }

  /** A target that is also an output gets its seed back: the entry the seeding loop wrote
      is never replaced, so a well-formed output's gradient with respect to itself is all
      ones. */
  lemma OutputTargetGetsSeed(vars: seq<Variable>, rank: seq<nat>, grad: Backward, outputs: seq<nat>, targets: seq<nat>, i: nat)
    requires Indexed(vars) && Ranked(vars, rank) && InRange(outputs, |vars|) && InRange(targets, |vars|)
    requires i < |targets| && targets[i] in outputs
    requires Backprop(vars, rank, grad, outputs, targets).Ok?
    ensures vars[targets[i]].data.Some?
    ensures Ok(Backprop(vars, rank, grad, outputs, targets).value[i]) == SeedOf(vars[targets[i]].data.value)
    ensures WellFormed(vars[targets[i]].data.value) ==>
      Backprop(vars, rank, grad, outputs, targets).value[i] == Filled(vars[targets[i]].data.value.shape, 1.0)
  {
    var seeded := Seeds(vars, outputs, |outputs|).value;
    SeedsSeeded(vars, outputs, |outputs|);
    assert outputs[..|outputs|] == outputs;
    assert seeded[targets[i]].Some?;
    var table := BuildAll(vars, rank, grad, targets, |targets|, seeded).value;
    BuildAllGrows(vars, rank, grad, targets, |targets|, seeded);
    assert table[targets[i]] == seeded[targets[i]];
    if WellFormed(vars[targets[i]].data.value) {
      SeedOfWellFormed(vars[targets[i]].data.value);
    }
  }
}

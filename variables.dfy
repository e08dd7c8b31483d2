/** The node record of the computational graph (variable.h). A graph keeps its variables
    in an arena indexed by id, so a record refers to its inputs and consumers by id. */
module Variables {
  import opened Failures
  import opened Tensors

  /** The operation kinds whose bodies the model carries. */
  datatype Operation =
    | Matmul
    | OneHot(size: nat, onValue: real, offValue: real)
    | L2Norm(lambda: real)
    | LossFunction
    | ErrorRate

  /** A graph node: the operation producing it (none for a leaf), the ids of the variables it
      reads (its parents) and of those that read it (its children), and its data, which the
      source holds through a pointer that may be null. The getters of variable.h return
      these fields; those that hand out references are modelled by the graph's update
      methods. */
  datatype Variable = Variable(
    id: nat,
    op: Option<Operation>,
    inputs: seq<nat>,
    consumers: seq<nat>,
    data: Option<Tensor>)

  /** The data of a variable, dereferenced: a null pointer is undefined behaviour. */
  function DataOf(v: Variable): (r: Result<Tensor>)
    ensures r.Ok? <==> v.data.Some?
    ensures r.Ok? ==> r.value == v.data.value
    ensures r.Err? ==> r.error == Error(Undefined, MissingData)
  {
    if v.data.Some? then Ok(v.data.value) else Err(Error(Undefined, MissingData))
  }

  /** The static id counter of the variable class. */
  class Counter {
    var next: nat

    constructor ()
      ensures next == 0
    {
      next := 0;
    }

    /** The variable constructor: the new variable takes the current count as its id and
        stores the other arguments as given; the counter then moves on by one. */
    method Create(op: Option<Operation>, inputs: seq<nat>, consumers: seq<nat>, data: Option<Tensor>)
      returns (v: Variable)
      modifies this
      ensures v == Variable(old(next), op, inputs, consumers, data)
      ensures next == old(next) + 1
    {
      v := Variable(next, op, inputs, consumers, data);
      next := next + 1;
    }
  }
}

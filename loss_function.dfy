/** The backward pass shared by the loss functions (src/operation/loss_functions/loss_function.cpp):
    a loss is where differentiation starts, so it hands every input a zero gradient. */
module LossFunctions {
  import opened Failures
  import opened Tensors
  import opened Variables

  /** LossFunction::bprop: a fresh tensor shaped like the focus variable's data and filled
      with zeros. Only the focus is read; dereferencing its null data is undefined. */
  function ZeroGradient(inputs: seq<Variable>, focus: Variable, gradient: Tensor): (r: Result<Tensor>)
    ensures r.Ok? <==> focus.data.Some?
    ensures r.Err? ==> r.error == Error(Undefined, MissingData)
    ensures r.Ok? ==> && r.value.shape == focus.data.value.shape
                      && WellFormed(r.value)
                      && forall k | 0 <= k < |r.value.data| :: r.value.data[k] == 0.0
  {
    var data :- DataOf(focus);
    Ok(Filled(data.shape, 0.0))
  }

  /** The zero gradient depends on the focus alone: neither the inputs nor the upstream
      gradient change it. */
  lemma ZeroGradientIgnoresArguments(inputs: seq<Variable>, inputs': seq<Variable>, focus: Variable,
                                     gradient: Tensor, gradient': Tensor)
    ensures ZeroGradient(inputs, focus, gradient) == ZeroGradient(inputs', focus, gradient')
  {
  }

  /** Two foci whose data have the same shape get the same zero gradient. */
  lemma ZeroGradientDependsOnShape(inputs: seq<Variable>, focus: Variable, other: Variable, gradient: Tensor)
    requires focus.data.Some? && other.data.Some? && focus.data.value.shape == other.data.value.shape
    ensures ZeroGradient(inputs, focus, gradient) == ZeroGradient(inputs, other, gradient)
  {
  }
}

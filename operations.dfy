/** Virtual dispatch over the operation kinds: the `f` and `bprop` members every operation
    overrides, as the graph calls them. `f` either stores a new tensor into the owning
    variable's data (Some) or stores nothing (None). */
module Operations {
  import opened Failures
  import opened Tensors
  import opened Variables
  import LinearAlgebra
  import OneHotEncoding
  import ErrorRates
  import L2Penalty
  import LossFunctions

  /** The effect of `f` on the owning variable: the tensor it assigns to the variable's data,
      if any. ErrorRate::f only reports its count; the forward pass of the concrete losses is
      not part of this model and stores nothing here. */
  function Apply(op: Operation, inputs: seq<Variable>): Result<Option<Tensor>>
  {
    match op
    case Matmul =>
      var t :- LinearAlgebra.Forward(inputs);
      Ok(Some(t))
    case OneHot(size, on, off) =>
      var t :- OneHotEncoding.Encode(inputs, size, on, off);
      Ok(Some(t))
    case L2Norm(lambda) =>
      var t :- L2Penalty.Penalty(inputs, lambda);
      Ok(Some(t))
    case LossFunction => Ok(None)
    case ErrorRate =>
      var count :- ErrorRates.ErrorCount(inputs);
      Ok(None)
  }

  /** `bprop(inputs, focus, gradient)`: the contribution of one consumer to the gradient of
      its input `focus`. ErrorRate inherits its bprop from a base class that is not part of
      this model; it is given the loss functions' zero gradient. */
  function Gradient(op: Operation, inputs: seq<Variable>, focus: Variable, gradient: Tensor): Result<Tensor>
  {
    match op
    case Matmul => LinearAlgebra.Bprop(inputs, focus.id, gradient)
    case OneHot(_, _, _) => OneHotEncoding.OneHotBprop(inputs, focus, gradient)
    case L2Norm(lambda) => L2Penalty.PenaltyGradient(inputs, gradient, lambda)
    case LossFunction => LossFunctions.ZeroGradient(inputs, focus, gradient)
    case ErrorRate => LossFunctions.ZeroGradient(inputs, focus, gradient)
  }

  /** The loops that run `f`, dispatched on the operation kind. */
  method RunForward(op: Operation, inputs: seq<Variable>) returns (r: Result<Option<Tensor>>)
    ensures r == Apply(op, inputs)
  {
    match op {
      case Matmul =>
        var t :- LinearAlgebra.F(inputs);
        r := Ok(Some(t));
      case OneHot(size, on, off) =>
        var t :- OneHotEncoding.OneHotF(inputs, size, on, off);
        r := Ok(Some(t));
      case L2Norm(lambda) =>
        var t :- L2Penalty.L2F(inputs, lambda);
        r := Ok(Some(t));
      case LossFunction =>
        r := Ok(None);
      case ErrorRate =>
        var count :- ErrorRates.ErrorRateF(inputs);
        r := Ok(None);
    }
  }

  /** The loops that run `bprop`, dispatched on the operation kind. */
  method RunBackward(op: Operation, inputs: seq<Variable>, focus: Variable, gradient: Tensor) returns (r: Result<Tensor>)
    ensures r == Gradient(op, inputs, focus, gradient)
  {
    match op {
      case Matmul =>
        r := LinearAlgebra.BackProp(inputs, focus.id, gradient);
      case OneHot(_, _, _) =>
        r := OneHotEncoding.OneHotBprop(inputs, focus, gradient);
      case L2Norm(lambda) =>
        r := L2Penalty.L2Bprop(inputs, gradient, lambda);
      case LossFunction =>
        r := LossFunctions.ZeroGradient(inputs, focus, gradient);
      case ErrorRate =>
        r := LossFunctions.ZeroGradient(inputs, focus, gradient);
    }
  }
}

/** Failure values for the exceptions the engine throws. Every operation of the model
    returns a `Result` (or an `Outcome` when it computes nothing) instead of throwing. */
module Failures {

  datatype Option<+T> = None | Some(value: T)

  /** The C++ exception class a failure surfaces as. `Undefined` stands for behaviour the
      C++ language leaves undefined or that ends the process: a null dereference, an integer
      division by zero, an unrepresentable floating-point-to-unsigned cast, or an exception
      that escapes a worker thread (which calls std::terminate). */
  datatype Exception = InvalidArgument | OutOfRange | RuntimeError | Undefined

  /** Which check failed. */
  datatype Reason =
    | IndexRankMismatch      // multi-index length differs from the dimensionality
    | OffsetOutOfRange       // computed or flat offset is not inside the data
    | EmptyTensor            // flat read of a tensor without elements
    | ShapeIndexOutOfRange   // shape(i) with i >= dimensionality
    | ReshapeMismatch        // product of the new shape differs from the capacity
    | DataSizeMismatch       // data length differs from the product of the shape
    | NotTwoDimensional      // transpose of a tensor that is not a matrix
    | ZeroDimension          // a zero dimension divides the row-major stride
    | WrongInputCount        // an operation received the wrong number of inputs
    | IncompatibleShapes     // inner dimensions of a matrix product differ
    | ClassOutOfRange        // one-hot class index >= encoding size
    | NegativeClass          // one-hot class index cannot be cast to unsigned
    | NoGradient             // backward pass of an operation without a gradient
    | TargetNotColumn        // error-rate target is not a column
    | RowCountMismatch       // error-rate prediction and target row counts differ
    | GradientNotScalar      // L2 upstream gradient does not have shape {1}
    | NoConsumers            // backward pass reached a variable nobody consumes
    | NoData                 // backward pass reached a variable of dimensionality 0
    | GradientShapeMismatch  // a contribution is not shaped like the focus data
    | GradientShapesDiffer   // two contributions have different shapes
    | MissingData            // the data pointer of a variable is null
    | WorkerAborted          // a matrix-product worker thread threw
    | ModuloByZero           // the L2 bias test takes a remainder modulo a zero row count
    | NullOperation          // a consumer reached in the backward pass has no operation
    | NoSuchOutput           // an output index past the registered outputs

  datatype Error = Error(kind: Exception, reason: Reason)

  datatype Result<+T> = Ok(value: T) | Err(error: Error) {
    predicate IsFailure() { Err? }

    function PropagateFailure<U>(): Result<U>
      requires Err?
    {
      Err(error)
    }

    function Extract(): T
      requires Ok?
    {
      value
    }
  }

  /** The result of an operation that returns nothing but may throw. */
  datatype Outcome = Pass | Fail(error: Error)

  /** Forgets the value of a result and keeps only whether it failed. */
  function OutcomeOf<T>(r: Result<T>): (o: Outcome)
    ensures o.Pass? <==> r.Ok?
    ensures r.Err? ==> o == Fail(r.error)
  {
    match r
    case Ok(_) => Pass
    case Err(e) => Fail(e)
  }

  /** In a run of states where a failed state is carried unchanged from each step to the
      next, a failure at step n is still the state at every later step m. */
  lemma {:induction false} FailureSticks<T>(runs: seq<T>, failed: T -> bool, n: nat, m: nat)
    requires n <= m < |runs| && failed(runs[n])
    requires forall i | n <= i < m :: failed(runs[i]) ==> runs[i + 1] == runs[i]
    ensures runs[m] == runs[n]
    decreases m - n
  {
    if n < m {
      FailureSticks(runs, failed, n + 1, m);
    }
  }
}

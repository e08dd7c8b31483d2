/** The matrix-product operation (operation/linear_algebra/matmul.h). The product fills a
    fresh result one column per worker; the model runs the workers one after the other,
    which is equivalent because every worker writes a different column. An exception
    inside a worker thread ends the process, so any failing read during the product is
    undefined behaviour. */
module LinearAlgebra {
  import opened Failures
  import opened Tensors
  import opened LegacyTensors
  import opened Variables

  /** The value at() returns when it succeeds. */
  function Entry(t: Tensor, i: int, j: int): real
  {
    var r := At(t, [i, j]);
    if r.Ok? then r.value else 0.0
  }

  predicate Readable(t: Tensor, i: int, j: int)
  {
    Locate(t, [i, j]).Ok?
  }

  /** left[i][0] * right[0][k] + ... + left[i][n-1] * right[n-1][k], added from j = 0. */
  function Dot(left: Tensor, right: Tensor, i: nat, k: nat, n: nat): real
  {
    if n == 0 then 0.0 else Dot(left, right, i, k, n - 1) + Entry(left, i, n - 1) * Entry(right, n - 1, k)
  }

  /** Every read the worker for column k makes succeeds. */
  predicate ColumnReadable(left: Tensor, right: Tensor, m: nat, n: nat, k: nat)
  {
    forall i, j | 0 <= i < m && 0 <= j < n :: Readable(left, i, j) && Readable(right, j, k)
  }

  /** One failing read makes the whole column unreadable. */
  lemma UnreadableColumn(left: Tensor, right: Tensor, m: nat, n: nat, k: nat, i: nat, j: nat)
    requires i < m && j < n && !(Readable(left, i, j) && Readable(right, j, k))
    ensures !ColumnReadable(left, right, m, n, k)
  {
  }

  /** Rows 0 .. i-1 and then row i readable: rows 0 .. i readable. */
  lemma ReadableRow(left: Tensor, right: Tensor, i: nat, n: nat, k: nat)
    requires 0 < i ==> ColumnReadable(left, right, i, n, k)
    requires forall j | 0 <= j < n :: Readable(left, i, j) && Readable(right, j, k)
    ensures ColumnReadable(left, right, i + 1, n, k)
  {
  }

  /** The worker for column k runs to its end: it has no rows, or the left operand has a
      second dimension and all its reads succeed. */
  predicate ColumnSucceeds(left: Tensor, right: Tensor, k: nat)
    requires |left.shape| >= 1
  {
    left.shape[0] == 0 || (|left.shape| >= 2 && ColumnReadable(left, right, left.shape[0], left.shape[1], k))
  }

  /** The inner dimension the workers sum over. */
  function Inner(left: Tensor): nat
  {
    if |left.shape| >= 2 then left.shape[1] else 0
  }

  /** matmul(left, right): shape(0) of the left and shape(1) of the right operand are read
      unchecked; then every worker must succeed; the result is [m, p] with element [i, k]
      the dot product of row i and column k. */
  function MatMulSpec(left: Tensor, right: Tensor): Result<Tensor>
  {
    if |left.shape| < 1 || |right.shape| < 2 then Err(Error(Undefined, ShapeIndexOutOfRange))
    else if exists k | 0 <= k < right.shape[1] :: !ColumnSucceeds(left, right, k) then
      Err(Error(Undefined, WorkerAborted))
    else Ok(Tabulate(left.shape[0], right.shape[1], (i: nat, k: nat) => Dot(left, right, i, k, Inner(left))))
  }

  /** The inner loop of blockmul: the running sum over j of left[i][j] * right[j][k],
      failing at the first read that fails. */
  method RowDot(left: Tensor, right: Tensor, i: nat, k: nat, n: nat) returns (r: Result<real>)
    ensures r.Ok? <==> forall j | 0 <= j < n :: Readable(left, i, j) && Readable(right, j, k)
    ensures r.Ok? ==> r.value == Dot(left, right, i, k, n)
    ensures r.Err? ==> r.error == Error(Undefined, WorkerAborted)
  {
    var sum := 0.0;
    for j := 0 to n
      invariant sum == Dot(left, right, i, k, j)
      invariant forall q | 0 <= q < j :: Readable(left, i, q) && Readable(right, q, k)
    {
      var a := At(left, [i, j]);
      if a.Err? {
        assert !Readable(left, i, j);
        return Err(Error(Undefined, WorkerAborted));
      }
      var b := At(right, [j, k]);
      if b.Err? {
        assert !Readable(right, j, k);
        return Err(Error(Undefined, WorkerAborted));
      }
      sum := sum + a.value * b.value;
    }
    return Ok(sum);
  }

  /** blockmul(k): for every row i, the sum accumulated over j is written to [i, k]; no other
      column of the result changes. */
  method BlockMul(left: Tensor, right: Tensor, result: LegacyTensor, k: nat) returns (o: Outcome)
    requires |left.shape| >= 1
    requires Matrix(result.Value()) && Rows(result.Value()) == left.shape[0] && k < Cols(result.Value())
    modifies result
    ensures o.Pass? <==> ColumnSucceeds(left, right, k)
    ensures o.Fail? ==> o.error == Error(Undefined, WorkerAborted)
    ensures result.Value().shape == old(result.Value()).shape && Matrix(result.Value())
    ensures o.Pass? ==> forall i, c | 0 <= i < Rows(result.Value()) && 0 <= c < Cols(result.Value()) ::
      Elem(result.Value(), i, c) == if c == k then Dot(left, right, i, k, Inner(left)) else Elem(old(result.Value()), i, c)
  {
    var m, p := left.shape[0], result.shape[1];
    ghost var start := result.Value();
    for i := 0 to m
      invariant result.Value().shape == start.shape && Matrix(result.Value())
      invariant forall r, c | 0 <= r < m && 0 <= c < p ::
        Elem(result.Value(), r, c) == if c == k && r < i then Dot(left, right, r, k, Inner(left)) else Elem(start, r, c)
      invariant 0 < i ==> |left.shape| >= 2 && ColumnReadable(left, right, i, left.shape[1], k)
    {
      if |left.shape| < 2 {
        return Fail(Error(Undefined, WorkerAborted));
      }
      var sum := RowDot(left, right, i, k, left.shape[1]);
      if sum.Err? {
        ghost var j :| 0 <= j < left.shape[1] && !(Readable(left, i, j) && Readable(right, j, k));
        UnreadableColumn(left, right, m, left.shape[1], k, i, j);
        return Fail(sum.error);
      }
      ReadableRow(left, right, i, left.shape[1], k);
      SetMatrixElem(result.Value(), i, k, sum.value);
      var s := result.Set([i, k], sum.value);
    }
    o := Pass;
  }

  /** The sequential form of matmul: a fresh [m, p] result of zeros, then one blockmul per
      column. */
  method MatMul(left: Tensor, right: Tensor) returns (r: Result<Tensor>)
    ensures r == MatMulSpec(left, right)
  {
    if |left.shape| < 1 || |right.shape| < 2 {
      return Err(Error(Undefined, ShapeIndexOutOfRange));
    }
    var m, p := left.shape[0], right.shape[1];
    ghost var product := Tabulate(m, p, (i: nat, k: nat) => Dot(left, right, i, k, Inner(left)));
    var result := new LegacyTensor([m, p], 0, false);
    ZerosMatrix(m, p);
    for k := 0 to p
      invariant result.Value().shape == [m, p] && Matrix(result.Value())
      invariant forall i, c | 0 <= i < m && 0 <= c < p ::
        Elem(result.Value(), i, c) == if c < k then Elem(product, i, c) else 0.0
      invariant forall c | 0 <= c < k :: ColumnSucceeds(left, right, c)
    {
      var o := BlockMul(left, right, result, k);
      if o.Fail? {
        assert !ColumnSucceeds(left, right, k);
        return Err(Error(Undefined, WorkerAborted));
      }
    }
    MatrixEquality(result.Value(), product);
    return Ok(result.Value());
  }

  /** The fresh result of matmul is a matrix of zeros. */
  lemma ZerosMatrix(m: nat, p: nat)
    ensures Matrix(Filled([m, p], 0.0))
    ensures forall i, c | 0 <= i < m && 0 <= c < p :: Elem(Filled([m, p], 0.0), i, c) == 0.0
  {
    ProductOfPair(m, p);
    forall i, c | 0 <= i < m && 0 <= c < p
      ensures Elem(Filled([m, p], 0.0), i, c) == 0.0
    {
      RowMajorBound(i, c, m, p);
    }
  }

  /** An independent statement of the product of two matrices: the sum of the elements of
      row i times those of column k. */
  function RowTimesColumn(left: Tensor, right: Tensor, i: nat, k: nat, n: nat): real
    requires Matrix(left) && Matrix(right) && i < Rows(left) && k < Cols(right)
    requires n <= Cols(left) && n <= Rows(right)
  {
    if n == 0 then 0.0
    else RowTimesColumn(left, right, i, k, n - 1) + Elem(left, i, n - 1) * Elem(right, n - 1, k)
  }

  /** For matrices with matching inner dimensions the product succeeds, has shape
      [rows(left), cols(right)] and element [i, k] the sum of row i times column k. */
  lemma MatMulOfMatrices(left: Tensor, right: Tensor)
    requires Matrix(left) && Matrix(right) && Cols(left) == Rows(right)
    ensures MatMulSpec(left, right).Ok?
    ensures MatMulSpec(left, right).value.shape == [Rows(left), Cols(right)]
    ensures Matrix(MatMulSpec(left, right).value)
    ensures forall i, k | 0 <= i < Rows(left) && 0 <= k < Cols(right) ::
      Elem(MatMulSpec(left, right).value, i, k) == RowTimesColumn(left, right, i, k, Cols(left))
  {
    var m, n, p := Rows(left), Cols(left), Cols(right);
    forall i, j | 0 <= i < m && 0 <= j < n
      ensures Readable(left, i, j) && Entry(left, i, j) == Elem(left, i, j)
    {
      AtMatrix(left, i, j);
    }
    forall j, k | 0 <= j < n && 0 <= k < p
      ensures Readable(right, j, k) && Entry(right, j, k) == Elem(right, j, k)
    {
      AtMatrix(right, j, k);
    }
    forall k | 0 <= k < p
      ensures ColumnSucceeds(left, right, k)
    {
    }
    forall i, k | 0 <= i < m && 0 <= k < p
      ensures Dot(left, right, i, k, n) == RowTimesColumn(left, right, i, k, n)
    {
      DotOfMatrices(left, right, i, k, n);
    }
  }

  lemma {:induction false} DotOfMatrices(left: Tensor, right: Tensor, i: nat, k: nat, n: nat)
    requires Matrix(left) && Matrix(right) && i < Rows(left) && k < Cols(right)
    requires n <= Cols(left) && n <= Rows(right)
    ensures Dot(left, right, i, k, n) == RowTimesColumn(left, right, i, k, n)
  {
    if n > 0 {
      DotOfMatrices(left, right, i, k, n - 1);
      AtMatrix(left, i, n - 1);
      AtMatrix(right, n - 1, k);
    }
  }

  // ---------------------------------------------------------------------------
  // The operation: f and bprop

  /** The checks f and bprop share: exactly two inputs, and shape(1) of the first operand
      equal to shape(0) of the second. */
  function Operands(inputs: seq<Variable>): (r: Result<(Tensor, Tensor)>)
    ensures r.Ok? ==> |inputs| == 2 && inputs[0].data == Some(r.value.0) && inputs[1].data == Some(r.value.1)
  {
    if |inputs| != 2 then Err(Error(InvalidArgument, WrongInputCount))
    else
      var left :- DataOf(inputs[0]);
      var cols :- LegacyShapeAt(left, 1);
      var right :- DataOf(inputs[1]);
      var rows :- LegacyShapeAt(right, 0);
      if cols != rows then Err(Error(InvalidArgument, IncompatibleShapes))
      else Ok((left, right))
  }

  /** f: the product of the two inputs, which the graph stores into the owning variable. */
  function Forward(inputs: seq<Variable>): Result<Tensor>
  {
    var operands :- Operands(inputs);
    MatMulSpec(operands.0, operands.1)
  }

  /** bprop: gradient times the transposed second input when the focus is the first input,
      the transposed first input times the gradient otherwise. */
  function Bprop(inputs: seq<Variable>, focus: nat, gradient: Tensor): Result<Tensor>
  {
    var operands :- Operands(inputs);
    if inputs[0].id == focus then
      var rightT :- Transposed(operands.1);
      MatMulSpec(gradient, rightT)
    else
      var leftT :- Transposed(operands.0);
      MatMulSpec(leftT, gradient)
  }

  method F(inputs: seq<Variable>) returns (r: Result<Tensor>)
    ensures r == Forward(inputs)
  {
    var operands :- Operands(inputs);
    r := MatMul(operands.0, operands.1);
  }

  method BackProp(inputs: seq<Variable>, focus: nat, gradient: Tensor) returns (r: Result<Tensor>)
    ensures r == Bprop(inputs, focus, gradient)
  {
    var operands :- Operands(inputs);
    if inputs[0].id == focus {
      var rightT :- Transposed(operands.1);
      r := MatMul(gradient, rightT);
    } else {
      var leftT :- Transposed(operands.0);
      r := MatMul(leftT, gradient);
    }
  }

  /** f and bprop reject the same inputs with the same exception: the wrong number of inputs
      is invalid_argument, and so are two matrices whose inner dimensions differ. */
  lemma ChecksAgree(inputs: seq<Variable>, focus: nat, gradient: Tensor)
    ensures Operands(inputs).Err? ==>
      Forward(inputs) == Err(Operands(inputs).error) && Bprop(inputs, focus, gradient) == Err(Operands(inputs).error)
    ensures |inputs| != 2 ==> Operands(inputs) == Err(Error(InvalidArgument, WrongInputCount))
    ensures (&& |inputs| == 2 && inputs[0].data.Some? && inputs[1].data.Some?
             && Matrix(inputs[0].data.value) && Matrix(inputs[1].data.value)
             && Cols(inputs[0].data.value) != Rows(inputs[1].data.value)) ==>
      Operands(inputs) == Err(Error(InvalidArgument, IncompatibleShapes))
  {
  }

  /** On two matrices with matching inner dimensions f yields their [m, p] product. */
  lemma ForwardOfMatrices(inputs: seq<Variable>)
    requires |inputs| == 2 && inputs[0].data.Some? && inputs[1].data.Some?
    requires Matrix(inputs[0].data.value) && Matrix(inputs[1].data.value)
    requires Cols(inputs[0].data.value) == Rows(inputs[1].data.value)
    ensures var left, right := inputs[0].data.value, inputs[1].data.value;
      && Forward(inputs).Ok? && Forward(inputs).value.shape == [Rows(left), Cols(right)]
      && Matrix(Forward(inputs).value)
      && forall i, k | 0 <= i < Rows(left) && 0 <= k < Cols(right) ::
           Elem(Forward(inputs).value, i, k) == RowTimesColumn(left, right, i, k, Cols(left))
  {
    MatMulOfMatrices(inputs[0].data.value, inputs[1].data.value);
  }

  /** With a gradient shaped like the output [m, p], bprop yields a gradient shaped like the
      focus: [m, n] for the first input, [n, p] for the second. */
  lemma BpropShapedLikeFocus(inputs: seq<Variable>, focus: nat, gradient: Tensor)
    requires |inputs| == 2 && inputs[0].data.Some? && inputs[1].data.Some?
    requires Matrix(inputs[0].data.value) && Matrix(inputs[1].data.value)
    requires Cols(inputs[0].data.value) == Rows(inputs[1].data.value)
    requires Matrix(gradient) && gradient.shape == [Rows(inputs[0].data.value), Cols(inputs[1].data.value)]
    ensures Bprop(inputs, focus, gradient).Ok? && Matrix(Bprop(inputs, focus, gradient).value)
    ensures inputs[0].id == focus ==> Bprop(inputs, focus, gradient).value.shape == inputs[0].data.value.shape
    ensures inputs[0].id != focus ==> Bprop(inputs, focus, gradient).value.shape == inputs[1].data.value.shape
  {
    var left, right := inputs[0].data.value, inputs[1].data.value;
    TransposeShape(left);
    TransposeShape(right);
    if inputs[0].id == focus {
      MatMulOfMatrices(gradient, Transposed(right).value);
    } else {
      MatMulOfMatrices(Transposed(left).value, gradient);
    }
  }
}

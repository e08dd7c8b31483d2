/** The one-hot encoder (operation/processing/one_hot.h): a forward-only operation that
    turns a column of class indices into rows holding `on` at the class column and `off`
    everywhere else. */
module OneHotEncoding {
  import opened Failures
  import opened Tensors
  import opened TensorBuffers
  import opened Variables

  /** static_cast<uint32_t> of a class value: truncation toward zero, undefined when the
      truncated value is negative. */
  function ClassColumn(value: real): (r: Result<nat>)
    ensures r.Ok? <==> value > -1.0
    ensures r.Err? ==> r.error == Error(Undefined, NegativeClass)
    ensures r.Ok? && value >= 0.0 ==> r.value as real <= value < r.value as real + 1.0
    ensures r.Ok? && value < 0.0 ==> r.value == 0
  {
    if value <= -1.0 then Err(Error(Undefined, NegativeClass))
    else if value < 0.0 then Ok(0)
    else Ok(value.Floor)
  }

  /** One pass of the row loop: read input[row][0], reject it when it is not below `size`,
      then set the `on` value at its column of the result. */
  function EncodeRow(input: Tensor, acc: Tensor, row: nat, size: nat, on: real): Result<Tensor>
  {
    var value :- At(input, [row, 0]);
    if value >= size as real then Err(Error(InvalidArgument, ClassOutOfRange))
    else
      var column :- ClassColumn(value);
      Update(acc, [row, column], Assign, on)
  }

  /** The result after the first n rows: the off-valued [rows, size] tensor with the first n
      rows encoded, or the failure of the first row that fails. */
  function EncodeRows(input: Tensor, size: nat, on: real, off: real, rows: nat, n: nat): Result<Tensor>
    requires n <= rows
  {
    if n == 0 then Ok(Filled([rows, size], off))
    else
      var acc :- EncodeRows(input, size, on, off, rows, n - 1);
      EncodeRow(input, acc, n - 1, size, on)
  }

  /** Once a row fails, every longer prefix fails with the same error. */
  lemma {:induction false} FirstFailureSticks(input: Tensor, size: nat, on: real, off: real, rows: nat, n: nat, m: nat)
    requires n <= m <= rows && EncodeRows(input, size, on, off, rows, n).Err?
    ensures EncodeRows(input, size, on, off, rows, m) == EncodeRows(input, size, on, off, rows, n)
  {
    if m > n {
      FirstFailureSticks(input, size, on, off, rows, n, m - 1);
    }
  }

  /** OneHot::f: exactly one input, then every row of its data encoded. */
  function Encode(inputs: seq<Variable>, size: nat, on: real, off: real): Result<Tensor>
  {
    if |inputs| != 1 then Err(Error(InvalidArgument, WrongInputCount))
    else
      var input :- DataOf(inputs[0]);
      var rows :- ShapeAt(input, 0);
      EncodeRows(input, size, on, off, rows, rows)
  }

  /** The loop of OneHot::f: a fresh off-valued tensor, then one `set` per row. The tensor is
      handed back only when every row succeeded, so a failure leaves the owning variable's
      data as it was. */
  method OneHotF(inputs: seq<Variable>, size: nat, on: real, off: real) returns (r: Result<Tensor>)
    ensures r == Encode(inputs, size, on, off)
  {
    if |inputs| != 1 {
      return Err(Error(InvalidArgument, WrongInputCount));
    }
    var input :- DataOf(inputs[0]);
    var rows :- ShapeAt(input, 0);
    var result := new TensorBuffer.WithValue([rows, size], off);
    for i := 0 to rows
      invariant EncodeRows(input, size, on, off, rows, i) == Ok(result.Value())
    {
      var value := At(input, [i, 0]);
      if value.Err? {
        FirstFailureSticks(input, size, on, off, rows, i + 1, rows);
        return Err(value.error);
      }
      if value.value >= size as real {
        FirstFailureSticks(input, size, on, off, rows, i + 1, rows);
        return Err(Error(InvalidArgument, ClassOutOfRange));
      }
      var column := ClassColumn(value.value);
      if column.Err? {
        FirstFailureSticks(input, size, on, off, rows, i + 1, rows);
        return Err(column.error);
      }
      var o := result.Set([i, column.value], on);
      if o.Fail? {
        FirstFailureSticks(input, size, on, off, rows, i + 1, rows);
        return Err(o.error);
      }
    }
    return Ok(result.Value());
  }

  /** OneHot::bprop: the encoder has no gradient. */
  function OneHotBprop(inputs: seq<Variable>, focus: Variable, gradient: Tensor): (r: Result<Tensor>)
    ensures r.Err? && r.error.kind == InvalidArgument && r.error.reason == NoGradient
  {
    Err(Error(InvalidArgument, NoGradient))
  }

  /** The class index of row i of a column of labels. */
  function Label(input: Tensor, i: nat): real
    requires Matrix(input) && i < Rows(input) && 0 < Cols(input)
  {
    Elem(input, i, 0)
  }

  /** For a matrix of non-negative labels, encoding the first n rows fails with
      invalid_argument exactly when one of those labels is not below `size`; otherwise row
      i < n holds `on` at column floor(label i) and `off` elsewhere, and later rows are
      still `off`. */
  lemma {:induction false} EncodeRowsCharacterised(input: Tensor, size: nat, on: real, off: real, n: nat)
    requires Matrix(input) && 0 < Cols(input) && n <= Rows(input)
    requires forall i | 0 <= i < Rows(input) :: Label(input, i) >= 0.0
    ensures var r := EncodeRows(input, size, on, off, Rows(input), n);
      && (r.Ok? <==> forall i | 0 <= i < n :: Label(input, i) < size as real)
      && (r.Err? ==> r.error == Error(InvalidArgument, ClassOutOfRange))
      && (r.Ok? ==>
            && r.value.shape == [Rows(input), size] && Matrix(r.value)
            && forall i, j | 0 <= i < Rows(input) && 0 <= j < size ::
                 Elem(r.value, i, j) == if i < n && j == Label(input, i).Floor then on else off)
  {
    var rows := Rows(input);
    if n == 0 {
      ProductOfPair(rows, size);
      forall i, j | 0 <= i < rows && 0 <= j < size
        ensures Elem(Filled([rows, size], off), i, j) == off
      {
        RowMajorBound(i, j, rows, size);
      }
    } else {
      EncodeRowsCharacterised(input, size, on, off, n - 1);
      var prev := EncodeRows(input, size, on, off, rows, n - 1);
      if prev.Ok? {
        var row := n - 1;
        AtMatrix(input, row, 0);
        var value := Label(input, row);
        if value < size as real {
          var column := value.Floor;
          assert ClassColumn(value) == Ok(column);
          SetMatrixElem(prev.value, row, column, on);
        }
      }
    }
  }

  /** OneHot::f on one input holding a matrix of non-negative labels: it fails with
      invalid_argument exactly when some label is not below `size`, and otherwise yields the
      [rows, size] encoding. */
  lemma EncodeOfLabels(inputs: seq<Variable>, size: nat, on: real, off: real)
    requires |inputs| == 1 && inputs[0].data.Some?
    requires var input := inputs[0].data.value;
      Matrix(input) && 0 < Cols(input) && forall i | 0 <= i < Rows(input) :: Label(input, i) >= 0.0
    ensures var input, r := inputs[0].data.value, Encode(inputs, size, on, off);
      && (r.Ok? <==> forall i | 0 <= i < Rows(input) :: Label(input, i) < size as real)
      && (r.Err? ==> r.error == Error(InvalidArgument, ClassOutOfRange))
      && (r.Ok? ==>
            && r.value.shape == [Rows(input), size] && Matrix(r.value)
            && forall i, j | 0 <= i < Rows(input) && 0 <= j < size ::
                 Elem(r.value, i, j) == if j == Label(input, i).Floor then on else off)
  {
    EncodeRowsCharacterised(inputs[0].data.value, size, on, off, Rows(inputs[0].data.value));
  }
}

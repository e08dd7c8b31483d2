/** The abstract tensor both tensor generations of the engine share: a shape (the ordered
    dimension sizes) and a flat row-major buffer. The functions here are the specifications
    of the tensor classes' methods (TensorBuffers, LegacyTensors); the lemmas state what
    the index arithmetic and the mutators promise. */
module Tensors {
  import opened Failures

  datatype Tensor = Tensor(shape: seq<nat>, data: seq<real>)

  /** Number of elements a shape describes (1 for the empty shape, as std::accumulate with
      initial value 1 gives). */
  function Product(shape: seq<nat>): nat
  {
    if shape == [] then 1 else shape[0] * Product(shape[1..])
  }

  /** The invariant of a well-formed tensor: its data length is the product of its shape. */
  predicate WellFormed(t: Tensor)
  {
    |t.data| == Product(t.shape)
  }

  /** A tensor of the given shape whose every element is `value`. */
  function Filled(shape: seq<nat>, value: real): (t: Tensor)
    ensures WellFormed(t) && t.shape == shape
    ensures forall k | 0 <= k < |t.data| :: t.data[k] == value
  {
    Tensor(shape, seq(Product(shape), _ => value))
  }

  // ---------------------------------------------------------------------------
  // Row-major index arithmetic

  /** The row-major offset of the first `n` coordinates of `index`: the sum over k < n of
      index[k] times the product of the dimensions after k. */
  function PartialOffset(shape: seq<nat>, index: seq<int>, n: nat): int
    requires n <= |index| && n <= |shape|
  {
    if n == 0 then 0
    else PartialOffset(shape, index, n - 1) + index[n - 1] * Product(shape[n..])
  }

  function Offset(shape: seq<nat>, index: seq<int>): int
    requires |index| == |shape|
  {
    PartialOffset(shape, index, |shape|)
  }

  /** Where a multi-index lands in the buffer, with the failures of the index loop: a
      length mismatch is invalid_argument, a zero dimension divides the stride by zero, and
      an offset outside the buffer (or negative, which the comparison with the unsigned
      buffer size turns into a huge value) is out_of_range. Coordinates are not checked one
      by one. */
  function Locate(t: Tensor, index: seq<int>): Result<nat>
  {
    if |index| != |t.shape| then Err(Error(InvalidArgument, IndexRankMismatch))
    else if 0 in t.shape then Err(Error(Undefined, ZeroDimension))
    else if Offset(t.shape, index) < 0 || Offset(t.shape, index) >= |t.data| then
      Err(Error(OutOfRange, OffsetOutOfRange))
    else Ok(Offset(t.shape, index))
  }

  /** The index loop both tensor generations run: it starts from the product of all
      dimensions, divides the block size by each dimension in turn and adds the coordinate
      times the block size. */
  method ComputeOffset(shape: seq<nat>, index: seq<int>) returns (offset: int)
    requires |index| == |shape| && 0 !in shape
    ensures offset == Offset(shape, index)
  {
    var blockSize := Product(shape);
    offset := 0;
    var i := 0;
    while i < |index|
      invariant 0 <= i <= |index|
      invariant blockSize == Product(shape[i..])
      invariant offset == PartialOffset(shape, index, i)
    {
      assert shape[i..][1..] == shape[i + 1..];
      RowMajorDivMod(Product(shape[i + 1..]), 0, shape[i]);
      blockSize := blockSize / shape[i];
      offset := offset + index[i] * blockSize;
      i := i + 1;
    }
  }

  /** Every in-range multi-index has an offset inside the buffer of a well-formed tensor. */
  lemma OffsetInBounds(shape: seq<nat>, index: seq<int>)
    requires |index| == |shape|
    requires forall k | 0 <= k < |shape| :: 0 <= index[k] < shape[k]
    ensures 0 <= Offset(shape, index) < Product(shape)
  {
    PartialOffsetBound(shape, index, |shape|);
    assert shape[|shape|..] == [];
  }

  /** After n coordinates, the offset leaves room for one block of the remaining ones. */
  lemma {:induction false} PartialOffsetBound(shape: seq<nat>, index: seq<int>, n: nat)
    requires |index| == |shape| && n <= |shape|
    requires forall k | 0 <= k < |shape| :: 0 <= index[k] < shape[k]
    ensures 0 <= PartialOffset(shape, index, n) <= Product(shape) - Product(shape[n..])
  {
    if n == 0 {
      assert shape[0..] == shape;
    } else {
      PartialOffsetBound(shape, index, n - 1);
      assert shape[n - 1..][1..] == shape[n..];
      var rest := Product(shape[n..]);
      assert Product(shape[n - 1..]) == shape[n - 1] * rest;
      MulMono(index[n - 1] + 1, shape[n - 1], rest);
      assert (index[n - 1] + 1) * rest == index[n - 1] * rest + rest;
    }
  }

  /** The offset of [i, j] in a matrix of shape [rows, cols] is i * cols + j. */
  lemma OffsetOfPair(rows: nat, cols: nat, i: int, j: int)
    ensures Offset([rows, cols], [i, j]) == i * cols + j
  {
    var shape, index := [rows, cols], [i, j];
    assert shape[2..] == [];
    assert shape[1..] == [cols] && [cols][1..] == [];
    assert Product(shape[1..]) == cols;
    assert PartialOffset(shape, index, 1) == i * cols;
  }

  // ---------------------------------------------------------------------------
  // Element access and in-place element mutators

  function At(t: Tensor, index: seq<int>): Result<real>
  {
    var k :- Locate(t, index);
    Ok(t.data[k])
  }

  /** The flat read of datatypes/tensor.hpp: an empty tensor and an index past the end are
      both out_of_range. */
  function AtFlat(t: Tensor, index: nat): Result<real>
  {
    if |t.data| == 0 then Err(Error(OutOfRange, EmptyTensor))
    else if index >= |t.data| then Err(Error(OutOfRange, OffsetOutOfRange))
    else Ok(t.data[index])
  }

  /** The five element-wise mutators share one shape: read, combine with `value`, write. */
  datatype Mutation = Assign | Increase | Decrease | Scale | Divide

  function Mutate(m: Mutation, x: real, value: real): real
    requires m.Divide? ==> value != 0.0
  {
    match m
    case Assign => value
    case Increase => x + value
    case Decrease => x - value
    case Scale => x * value
    case Divide => x / value
  }

  function Update(t: Tensor, index: seq<int>, m: Mutation, value: real): Result<Tensor>
    requires m.Divide? ==> value != 0.0
  {
    var k :- Locate(t, index);
    Ok(t.(data := t.data[k := Mutate(m, t.data[k], value)]))
  }

  function UpdateFlat(t: Tensor, index: nat, m: Mutation, value: real): Result<Tensor>
    requires m.Divide? ==> value != 0.0
  {
    if index >= |t.data| then Err(Error(OutOfRange, OffsetOutOfRange))
    else Ok(t.(data := t.data[index := Mutate(m, t.data[index], value)]))
  }

  /** A multi-index mutator succeeds exactly when the index can be located; it then changes
      the located element and nothing else. */
  lemma UpdateChangesOneElement(t: Tensor, index: seq<int>, m: Mutation, value: real)
    requires m.Divide? ==> value != 0.0
    ensures Update(t, index, m, value).Ok? <==> Locate(t, index).Ok?
    ensures Locate(t, index).Err? ==> Update(t, index, m, value) == Err(Locate(t, index).error)
    ensures Update(t, index, m, value).Ok? ==>
      var r, k := Update(t, index, m, value).value, Locate(t, index).value;
      && r.shape == t.shape && |r.data| == |t.data|
      && r.data[k] == Mutate(m, t.data[k], value)
      && forall j | 0 <= j < |t.data| && j != k :: r.data[j] == t.data[j]
  {
  }

  /** A flat mutator throws out_of_range exactly for an index past the end; otherwise it
      changes that one element, and the shape and every other element stay. */
  lemma UpdateFlatChangesOneElement(t: Tensor, index: nat, m: Mutation, value: real)
    requires m.Divide? ==> value != 0.0
    ensures UpdateFlat(t, index, m, value).Err? <==> index >= |t.data|
    ensures UpdateFlat(t, index, m, value).Err? ==>
      UpdateFlat(t, index, m, value).error == Error(OutOfRange, OffsetOutOfRange)
    ensures UpdateFlat(t, index, m, value).Ok? ==>
      var r := UpdateFlat(t, index, m, value).value;
      && r.shape == t.shape && |r.data| == |t.data|
      && r.data[index] == Mutate(m, t.data[index], value)
      && forall j | 0 <= j < |t.data| && j != index :: r.data[j] == t.data[j]
  {
  }

  /** The tensor an in-place operation leaves behind: the new value when it succeeds, the
      old one when it throws before writing. */
  function Committed(before: Tensor, r: Result<Tensor>): Tensor
  {
    if r.Ok? then r.value else before
  }

  /** After a successful `set(idx, v)`, `at(idx)` returns v. */
  lemma SetThenAt(t: Tensor, index: seq<int>, value: real)
    requires Update(t, index, Assign, value).Ok?
    ensures At(Update(t, index, Assign, value).value, index) == Ok(value)
  {
  }

  lemma SetFlatThenAtFlat(t: Tensor, index: nat, value: real)
    requires UpdateFlat(t, index, Assign, value).Ok?
    ensures AtFlat(UpdateFlat(t, index, Assign, value).value, index) == Ok(value)
  {
  }

  /** Every mutator keeps the tensor well-formed. */
  lemma UpdateKeepsWellFormed(t: Tensor, index: seq<int>, m: Mutation, value: real)
    requires m.Divide? ==> value != 0.0
    requires WellFormed(t) && Update(t, index, m, value).Ok?
    ensures WellFormed(Update(t, index, m, value).value)
  {
  }

  // ---------------------------------------------------------------------------
  // Shape queries and shape changes

  /** shape(i) of datatypes/tensor.hpp: out_of_range for i >= dimensionality. */
  function ShapeAt(t: Tensor, i: nat): (r: Result<nat>)
    ensures r.Ok? <==> i < |t.shape|
    ensures r.Ok? ==> r.value == t.shape[i]
    ensures r.Err? ==> r.error == Error(OutOfRange, ShapeIndexOutOfRange)
  {
    if i >= |t.shape| then Err(Error(OutOfRange, ShapeIndexOutOfRange)) else Ok(t.shape[i])
  }

  /** std::vector::resize to the product of the new shape: the common prefix is kept and new
      elements are zero. */
  function Resized(t: Tensor, shape: seq<nat>): Tensor
  {
    Tensor(shape, seq(Product(shape), k requires 0 <= k < Product(shape) =>
      if k < |t.data| then t.data[k] else 0.0))
  }

  lemma ResizeKeepsPrefix(t: Tensor, shape: seq<nat>)
    ensures WellFormed(Resized(t, shape)) && Resized(t, shape).shape == shape
    ensures forall k | 0 <= k < |t.data| && k < Product(shape) :: Resized(t, shape).data[k] == t.data[k]
    ensures forall k | |t.data| <= k < Product(shape) :: Resized(t, shape).data[k] == 0.0
  {
  }

  function Reshaped(t: Tensor, shape: seq<nat>): Result<Tensor>
  {
    if Product(shape) != |t.data| then Err(Error(InvalidArgument, ReshapeMismatch))
    else Ok(Tensor(shape, t.data))
  }

  /** reshape fails with invalid_argument exactly when the new shape does not describe the
      capacity; otherwise only the shape changes. */
  lemma ReshapeKeepsData(t: Tensor, shape: seq<nat>)
    ensures Reshaped(t, shape).Ok? <==> Product(shape) == |t.data|
    ensures Reshaped(t, shape).Err? ==> Reshaped(t, shape).error == Error(InvalidArgument, ReshapeMismatch)
    ensures Reshaped(t, shape).Ok? ==>
      Reshaped(t, shape).value.data == t.data && Reshaped(t, shape).value.shape == shape
      && WellFormed(Reshaped(t, shape).value)
  {
  }

  /** data() of tensor.h: the buffer, or invalid_argument when its length is not the
      product of the shape. */
  function CheckedData(t: Tensor): (r: Result<seq<real>>)
    ensures r.Ok? <==> WellFormed(t)
    ensures r.Ok? ==> r.value == t.data
    ensures r.Err? ==> r.error == Error(InvalidArgument, DataSizeMismatch)
  {
    if |t.data| != Product(t.shape) then Err(Error(InvalidArgument, DataSizeMismatch)) else Ok(t.data)
  }

  // ---------------------------------------------------------------------------
  // Matrices

  /** A two-dimensional tensor whose buffer holds exactly rows * cols elements. */
  predicate Matrix(t: Tensor)
  {
    |t.shape| == 2 && |t.data| == t.shape[0] * t.shape[1]
  }

  /** For a two-dimensional tensor, being a matrix is being well-formed. */
  lemma MatrixIsWellFormed(t: Tensor)
    requires |t.shape| == 2
    ensures Matrix(t) <==> WellFormed(t)
  {
    assert t.shape == [t.shape[0], t.shape[1]];
    ProductOfPair(t.shape[0], t.shape[1]);
  }

  function Rows(t: Tensor): nat
    requires |t.shape| == 2
  {
    t.shape[0]
  }

  function Cols(t: Tensor): nat
    requires |t.shape| == 2
  {
    t.shape[1]
  }

  lemma ProductOfPair(rows: nat, cols: nat)
    ensures Product([rows, cols]) == rows * cols
  {
    assert [rows, cols][1..] == [cols] && [cols][1..] == [];
    assert Product([cols]) == cols * Product([]) == cols;
  }

  /** Element [i, j] of a well-formed matrix. */
  function Elem(t: Tensor, i: nat, j: nat): real
    requires Matrix(t) && i < Rows(t) && j < Cols(t)
  {
    RowMajorBound(i, j, Rows(t), Cols(t));
    t.data[i * Cols(t) + j]
  }

  /** at({i, j}) of an in-range pair in a well-formed matrix succeeds and reads Elem. */
  lemma AtMatrix(t: Tensor, i: nat, j: nat)
    requires Matrix(t) && i < Rows(t) && j < Cols(t)
    ensures Locate(t, [i, j]) == Ok(i * Cols(t) + j)
    ensures At(t, [i, j]) == Ok(Elem(t, i, j))
  {
    assert t.shape == [Rows(t), Cols(t)];
    OffsetOfPair(Rows(t), Cols(t), i, j);
    RowMajorBound(i, j, Rows(t), Cols(t));
  }

  /** The matrix of shape [rows, cols] whose element [i, j] is f(i, j). */
  function Tabulate(rows: nat, cols: nat, f: (nat, nat) -> real): (t: Tensor)
    ensures Matrix(t) && t.shape == [rows, cols]
    ensures forall i, j | 0 <= i < rows && 0 <= j < cols :: Elem(t, i, j) == f(i, j)
  {
    var t := Tensor([rows, cols], seq(rows * cols, k requires 0 <= k < rows * cols =>
      CellOf(k, rows, cols, f)));
    forall i, j | 0 <= i < rows && 0 <= j < cols
      ensures Elem(t, i, j) == f(i, j)
    {
      RowMajorBound(i, j, rows, cols);
      RowMajorDivMod(i, j, cols);
    }
    t
  }

  function CellOf(k: nat, rows: nat, cols: nat, f: (nat, nat) -> real): real
    requires k < rows * cols
  {
    if cols == 0 then 0.0 else f(k / cols, k % cols)
  }

  /** Two matrices of the same shape with the same elements are equal. */
  lemma MatrixEquality(a: Tensor, b: Tensor)
    requires Matrix(a) && Matrix(b) && a.shape == b.shape
    requires forall i, j | 0 <= i < Rows(a) && 0 <= j < Cols(a) :: Elem(a, i, j) == Elem(b, i, j)
    ensures a == b
  {
    forall k | 0 <= k < |a.data|
      ensures a.data[k] == b.data[k]
    {
      var i, j := k / Cols(a), k % Cols(a);
      RowMajorDivMod(i, j, Cols(a));
      assert k == i * Cols(a) + j;
      if i >= Rows(a) {
        MulMono(Rows(a), i, Cols(a));
        assert false;
      }
      assert Elem(a, i, j) == Elem(b, i, j);
    }
  }

  /** Distinct in-range pairs have distinct row-major offsets. */
  lemma RowMajorInjective(i: nat, j: nat, r: nat, c: nat, cols: nat)
    requires j < cols && c < cols && i * cols + j == r * cols + c
    ensures i == r && j == c
  {
    RowMajorDivMod(i, j, cols);
    RowMajorDivMod(r, c, cols);
  }

  /** set({i, j}, v) on a matrix with an in-range pair succeeds and changes element [i, j]
      alone. */
  lemma SetMatrixElem(t: Tensor, i: nat, j: nat, v: real)
    requires Matrix(t) && i < Rows(t) && j < Cols(t)
    ensures Update(t, [i, j], Assign, v).Ok?
    ensures var u := Update(t, [i, j], Assign, v).value;
      && u.shape == t.shape && Matrix(u)
      && forall r, c | 0 <= r < Rows(t) && 0 <= c < Cols(t) ::
           Elem(u, r, c) == if r == i && c == j then v else Elem(t, r, c)
  {
    AtMatrix(t, i, j);
    var u := Update(t, [i, j], Assign, v).value;
    forall r, c | 0 <= r < Rows(t) && 0 <= c < Cols(t)
      ensures Elem(u, r, c) == if r == i && c == j then v else Elem(t, r, c)
    {
      RowMajorBound(r, c, Rows(t), Cols(t));
      if r * Cols(t) + c == i * Cols(t) + j {
        RowMajorInjective(r, c, i, j, Cols(t));
      }
    }
  }

  /** The transpose of tensor.h: invalid_argument unless 2-D; reading past a buffer
      shorter than s0 * s1 is undefined. The result has shape [s1, s0] and a buffer as long
      as the source's, where position j * s0 + i receives source element i * s1 + j and
      any position past s0 * s1 keeps its zero. */
  function Transposed(t: Tensor): Result<Tensor>
  {
    if |t.shape| != 2 then Err(Error(InvalidArgument, NotTwoDimensional))
    else if |t.data| < t.shape[0] * t.shape[1] then Err(Error(Undefined, OffsetOutOfRange))
    else Ok(Tensor([t.shape[1], t.shape[0]], seq(|t.data|, k requires 0 <= k < |t.data| =>
      TransposedEntry(t, k))))
  }

  function TransposedEntry(t: Tensor, k: nat): real
    requires |t.shape| == 2 && |t.data| >= t.shape[0] * t.shape[1] && k < |t.data|
  {
    var s0, s1 := t.shape[0], t.shape[1];
    if s0 > 0 && k < s1 * s0 then
      SourcePosition(k, s0, s1);
      t.data[(k % s0) * s1 + k / s0]
    else 0.0
  }

  /** Position k = j * s0 + i of the transpose comes from position i * s1 + j. */
  lemma SourcePosition(k: nat, s0: nat, s1: nat)
    requires 0 < s0 && k < s1 * s0
    ensures k / s0 < s1 && (k % s0) * s1 + k / s0 < s0 * s1
  {
    RowMajorDivMod(k / s0, k % s0, s0);
    if k / s0 >= s1 {
      MulMono(s1, k / s0, s0);
      assert false;
    }
    RowMajorBound(k % s0, k / s0, s0, s1);
  }

  lemma TransposeShape(t: Tensor)
    ensures Transposed(t).Err? <==> |t.shape| != 2 || |t.data| < t.shape[0] * t.shape[1]
    ensures |t.shape| != 2 ==> Transposed(t).error == Error(InvalidArgument, NotTwoDimensional)
    ensures Transposed(t).Ok? ==>
      Transposed(t).value.shape == [t.shape[1], t.shape[0]] && |Transposed(t).value.data| == |t.data|
    ensures Matrix(t) ==> Transposed(t).Ok? && Matrix(Transposed(t).value)
  {
  }

  /** result[j][i] == source[i][j] for every in-range pair. */
  lemma TransposeMovesElements(t: Tensor, i: nat, j: nat)
    requires Matrix(t) && i < Rows(t) && j < Cols(t)
    ensures Transposed(t).Ok? && Matrix(Transposed(t).value)
    ensures Elem(Transposed(t).value, j, i) == Elem(t, i, j)
  {
    TransposeShape(t);
    var s0, s1 := Rows(t), Cols(t);
    RowMajorDivMod(j, i, s0);
    RowMajorBound(j, i, s1, s0);
  }

  /** Every flat position of a matrix is the row-major position of a row and a column. */
  lemma MatrixPosition(t: Tensor, k: nat) returns (i: nat, j: nat)
    requires Matrix(t) && k < |t.data|
    ensures i < Rows(t) && j < Cols(t) && k == i * Cols(t) + j
  {
    i, j := k / Cols(t), k % Cols(t);
    RowMajorDivMod(i, j, Cols(t));
    if i >= Rows(t) {
      MulMono(Rows(t), i, Cols(t));
      assert false;
    }
  }

  /** Transposing twice gives back the original shape and data. */
  lemma TransposeTwice(t: Tensor)
    requires Matrix(t)
    ensures Transposed(t).Ok? && Matrix(Transposed(t).value)
    ensures Transposed(Transposed(t).value) == Ok(t)
  {
    TransposeShape(t);
    var u := Transposed(t).value;
    TransposeShape(u);
    var w := Transposed(u).value;
    assert w.shape == t.shape;
    forall k | 0 <= k < |t.data|
      ensures w.data[k] == t.data[k]
    {
      var i, j := MatrixPosition(t, k);
      TransposeMovesElements(t, i, j);
      TransposeMovesElements(u, j, i);
      assert Elem(w, i, j) == Elem(t, i, j);
    }
    assert w.data == t.data;
  }

  // ---------------------------------------------------------------------------
  // Arithmetic helpers

  lemma MulMono(a: nat, b: nat, c: nat)
    requires a <= b
    ensures a * c <= b * c
  {
    assert b * c == a * c + (b - a) * c;
  }

  lemma RowMajorBound(i: nat, j: nat, rows: nat, cols: nat)
    requires i < rows && j < cols
    ensures i * cols + j < rows * cols
  {
    MulMono(i + 1, rows, cols);
    assert (i + 1) * cols == i * cols + cols;
  }

  lemma RowMajorDivMod(q: nat, r: nat, n: nat)
    requires r < n
    ensures (q * n + r) / n == q && (q * n + r) % n == r
  {
    var x := q * n + r;
    var d, m := x / n, x % n;
    assert x == d * n + m;
    assert (q + 1) * n == q * n + n;
    assert (d + 1) * n == d * n + n;
    if d > q {
      MulMono(q + 1, d, n);
      assert false;
    } else if d < q {
      MulMono(d + 1, q, n);
      assert false;
    }
  }
}

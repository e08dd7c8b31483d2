/** The older tensor class of tensor.h, which the graph engine and the matrix product use:
    a data vector and a shape vector, signed multi-indices, a `data()` accessor that checks
    the length invariant, and a transpose into a new buffer. */
module LegacyTensors {
  import opened Failures
  import opened Tensors

  /** shape(i) of tensor.h reads the shape vector without a bounds check, so an index past
      the dimensionality is undefined. */
  function LegacyShapeAt(t: Tensor, i: nat): (r: Result<nat>)
    ensures r.Ok? <==> i < |t.shape|
    ensures r.Ok? ==> r.value == t.shape[i]
    ensures r.Err? ==> r.error == Error(Undefined, ShapeIndexOutOfRange)
  {
    if i < |t.shape| then Ok(t.shape[i]) else Err(Error(Undefined, ShapeIndexOutOfRange))
  }

  /** Whether the transpose loop has written buffer position k once it has finished every
      source row before i and, in row i, every column before j. Position k is written by
      source row k % s0 and column k / s0. */
  predicate Written(k: nat, s0: nat, s1: nat, i: nat, j: nat)
  {
    s0 > 0 && k < s1 * s0 && (k % s0 < i || (k % s0 == i && k / s0 < j))
  }

  /** The buffer of the transpose part-way through the nested loop. */
  function TransposeProgress(t: Tensor, i: nat, j: nat): (b: seq<real>)
    requires |t.shape| == 2 && |t.data| >= t.shape[0] * t.shape[1]
    ensures |b| == |t.data|
  {
    seq(|t.data|, k requires 0 <= k < |t.data| =>
      if Written(k, t.shape[0], t.shape[1], i, j) then TransposedEntry(t, k) else 0.0)
  }

  /** Writing source element [i, j] to position j * s0 + i advances the loop by one column. */
  lemma TransposeStep(t: Tensor, i: nat, j: nat)
    requires |t.shape| == 2 && |t.data| >= t.shape[0] * t.shape[1]
    requires i < t.shape[0] && j < t.shape[1]
    ensures j * t.shape[0] + i < |t.data| && i * t.shape[1] + j < |t.data|
    ensures TransposeProgress(t, i, j)[j * t.shape[0] + i := t.data[i * t.shape[1] + j]]
         == TransposeProgress(t, i, j + 1)
  {
    var s0, s1 := t.shape[0], t.shape[1];
    var p := j * s0 + i;
    RowMajorDivMod(j, i, s0);
    RowMajorBound(j, i, s1, s0);
    RowMajorBound(i, j, s0, s1);
    var before, after := TransposeProgress(t, i, j), TransposeProgress(t, i, j + 1);
    forall k | 0 <= k < |t.data|
      ensures before[p := t.data[i * s1 + j]][k] == after[k]
    {
      if k != p {
        assert k == (k / s0) * s0 + k % s0;
        assert Written(k, s0, s1, i, j) <==> Written(k, s0, s1, i, j + 1);
      }
    }
  }

  /** Finishing a source row is starting the next one. */
  lemma TransposeNextRow(t: Tensor, i: nat)
    requires |t.shape| == 2 && |t.data| >= t.shape[0] * t.shape[1]
    ensures TransposeProgress(t, i, t.shape[1]) == TransposeProgress(t, i + 1, 0)
  {
    var s0, s1 := t.shape[0], t.shape[1];
    forall k | 0 <= k < |t.data|
      ensures Written(k, s0, s1, i, s1) <==> Written(k, s0, s1, i + 1, 0)
    {
      if s0 > 0 && k < s1 * s0 {
        SourcePosition(k, s0, s1);
      }
    }
  }

  class LegacyTensor {
    var shape: seq<nat>
    var data: seq<real>

    function Value(): Tensor
      reads this
    {
      Tensor(shape, data)
    }

    ghost predicate Valid()
      reads this
    {
      WellFormed(Value())
    }

    /** product(dims) copies of the integer `value`; the random initialisation writes 1 to
        every element. */
    constructor (dims: seq<nat>, value: int, random: bool)
      ensures Value() == Filled(dims, if random then 1.0 else value as real) && Valid()
    {
      var init := value as real;
      var buffer := seq(Product(dims), _ => init);
      if random {
        var i := 0;
        while i < |buffer|
          invariant 0 <= i <= |buffer| == Product(dims)
          invariant forall k | 0 <= k < |buffer| :: buffer[k] == if k < i then 1.0 else init
        {
          buffer := buffer[i := 1.0];
          i := i + 1;
        }
      }
      data := buffer;
      shape := dims;
    }

    /** data(): the buffer after error_check. */
    method CheckedData() returns (r: Result<seq<real>>)
      ensures r == Tensors.CheckedData(Value())
    {
      if |data| != Product(shape) {
        return Err(Error(InvalidArgument, DataSizeMismatch));
      }
      return Ok(data);
    }

    /** The index loop of at and set: a negative offset, compared with the unsigned buffer
        size, is out of range like an offset past the end. */
    method Locate(index: seq<int>) returns (r: Result<nat>)
      ensures r == Tensors.Locate(Value(), index)
    {
      if |index| != |shape| {
        return Err(Error(InvalidArgument, IndexRankMismatch));
      }
      if 0 in shape {
        return Err(Error(Undefined, ZeroDimension));
      }
      var offset := ComputeOffset(shape, index);
      if offset < 0 || offset >= |data| {
        return Err(Error(OutOfRange, OffsetOutOfRange));
      }
      return Ok(offset);
    }

    method At(index: seq<int>) returns (r: Result<real>)
      ensures r == Tensors.At(Value(), index)
    {
      var k :- Locate(index);
      return Ok(data[k]);
    }

    method Set(index: seq<int>, value: real) returns (o: Outcome)
      modifies this
      ensures o == OutcomeOf(Update(old(Value()), index, Assign, value))
      ensures Value() == Committed(old(Value()), Update(old(Value()), index, Assign, value))
      ensures old(Valid()) ==> Valid()
    {
      var r := Locate(index);
      if r.Err? {
        return Fail(r.error);
      }
      data := data[r.value := value];
      return Pass;
    }

    method ShapeAt(i: nat) returns (r: Result<nat>)
      ensures r == LegacyShapeAt(Value(), i)
    {
      if i >= |shape| {
        return Err(Error(Undefined, ShapeIndexOutOfRange));
      }
      return Ok(shape[i]);
    }

    method Resize(dims: seq<nat>)
      modifies this
      ensures Value() == Resized(old(Value()), dims) && Valid()
    {
      var kept := data;
      shape := dims;
      data := seq(Product(dims), k requires 0 <= k < Product(dims) =>
        if k < |kept| then kept[k] else 0.0);
    }

    /** The nested loop of transpose, writing the new buffer one source element at a time;
        the source is not modified. */
    method Transpose() returns (r: Result<Tensor>)
      ensures r == Transposed(Value())
    {
      if |shape| != 2 {
        return Err(Error(InvalidArgument, NotTwoDimensional));
      }
      var s0, s1 := shape[0], shape[1];
      if |data| < s0 * s1 {
        return Err(Error(Undefined, OffsetOutOfRange));
      }
      var t := Value();
      var buffer := seq(|data|, _ => 0.0);
      assert buffer == TransposeProgress(t, 0, 0);
      for i := 0 to s0
        invariant buffer == TransposeProgress(t, i, 0)
      {
        for j := 0 to s1
          invariant buffer == TransposeProgress(t, i, j)
        {
          TransposeStep(t, i, j);
          buffer := buffer[j * s0 + i := data[i * s1 + j]];
        }
        TransposeNextRow(t, i);
      }
      assert buffer == Transposed(t).value.data;
      return Ok(Tensor([s1, s0], buffer));
    }
  }
}

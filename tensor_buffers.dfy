/** The tensor class of datatypes/tensor.hpp: a data vector and a shape vector that its
    methods update in place. Every method is specified by the value functions of
    `Tensors`. */
module TensorBuffers {
  import opened Failures
  import opened Tensors

  class TensorBuffer {
    var mShape: seq<nat>
    var mData: seq<real>

    /** The tensor value the two fields hold. */
    function Value(): Tensor
      reads this
    {
      Tensor(mShape, mData)
    }

    /** The class invariant every constructor establishes and every method keeps. */
    ghost predicate Valid()
      reads this
    {
      WellFormed(Value())
    }

    /** The one-argument constructor: product(dims) zeros. */
    constructor (dims: seq<nat>)
      ensures Value() == Filled(dims, 0.0) && Valid()
    {
      mShape := dims;
      mData := seq(Product(dims), _ => 0.0);
    }

    /** The two-argument constructor: product(dims) copies of `value`. */
    constructor WithValue(dims: seq<nat>, value: real)
      ensures Value() == Filled(dims, value) && Valid()
    {
      mShape := dims;
      mData := seq(Product(dims), _ => value);
    }

    /** calculateIndex: the rank check, the block-size loop, then the range check. */
    method CalculateIndex(index: seq<nat>) returns (r: Result<nat>)
      ensures r == Locate(Value(), index)
    {
      if |index| != |mShape| {
        return Err(Error(InvalidArgument, IndexRankMismatch));
      }
      if 0 in mShape {
        return Err(Error(Undefined, ZeroDimension));
      }
      var offset := ComputeOffset(mShape, index);
      if offset < 0 || offset >= |mData| {
        return Err(Error(OutOfRange, OffsetOutOfRange));
      }
      return Ok(offset);
    }

    method At(index: seq<nat>) returns (r: Result<real>)
      ensures r == Tensors.At(Value(), index)
    {
      var k :- CalculateIndex(index);
      return Ok(mData[k]);
    }

    method AtFlat(index: nat) returns (r: Result<real>)
      ensures r == Tensors.AtFlat(Value(), index)
    {
      if |mData| == 0 {
        return Err(Error(OutOfRange, EmptyTensor));
      }
      if index >= |mData| {
        return Err(Error(OutOfRange, OffsetOutOfRange));
      }
      return Ok(mData[index]);
    }

    /** The body the five multi-index mutators share. */
    method Apply(index: seq<nat>, m: Mutation, value: real) returns (o: Outcome)
      requires m.Divide? ==> value != 0.0
      modifies this
      ensures o == OutcomeOf(Update(old(Value()), index, m, value))
      ensures Value() == Committed(old(Value()), Update(old(Value()), index, m, value))
      ensures old(Valid()) ==> Valid()
    {
      var r := CalculateIndex(index);
      if r.Err? {
        return Fail(r.error);
      }
      mData := mData[r.value := Mutate(m, mData[r.value], value)];
      return Pass;
    }

    /** The body the five flat mutators share. */
    method ApplyFlat(index: nat, m: Mutation, value: real) returns (o: Outcome)
      requires m.Divide? ==> value != 0.0
      modifies this
      ensures o == OutcomeOf(UpdateFlat(old(Value()), index, m, value))
      ensures Value() == Committed(old(Value()), UpdateFlat(old(Value()), index, m, value))
      ensures old(Valid()) ==> Valid()
    {
      if index >= |mData| {
        return Fail(Error(OutOfRange, OffsetOutOfRange));
      }
      mData := mData[index := Mutate(m, mData[index], value)];
      return Pass;
    }

    method Set(index: seq<nat>, value: real) returns (o: Outcome)
      modifies this
      ensures o == OutcomeOf(Update(old(Value()), index, Assign, value))
      ensures Value() == Committed(old(Value()), Update(old(Value()), index, Assign, value))
      ensures old(Valid()) ==> Valid()
    {
      o := Apply(index, Assign, value);
    }

    method SetFlat(index: nat, value: real) returns (o: Outcome)
      modifies this
      ensures o == OutcomeOf(UpdateFlat(old(Value()), index, Assign, value))
      ensures Value() == Committed(old(Value()), UpdateFlat(old(Value()), index, Assign, value))
      ensures old(Valid()) ==> Valid()
    {
      o := ApplyFlat(index, Assign, value);
    }

    method Add(index: seq<nat>, value: real) returns (o: Outcome)
      modifies this
      ensures o == OutcomeOf(Update(old(Value()), index, Increase, value))
      ensures Value() == Committed(old(Value()), Update(old(Value()), index, Increase, value))
      ensures old(Valid()) ==> Valid()
    {
      o := Apply(index, Increase, value);
    }

    method AddFlat(index: nat, value: real) returns (o: Outcome)
      modifies this
      ensures o == OutcomeOf(UpdateFlat(old(Value()), index, Increase, value))
      ensures Value() == Committed(old(Value()), UpdateFlat(old(Value()), index, Increase, value))
      ensures old(Valid()) ==> Valid()
    {
      o := ApplyFlat(index, Increase, value);
    }

    method Subtract(index: seq<nat>, value: real) returns (o: Outcome)
      modifies this
      ensures o == OutcomeOf(Update(old(Value()), index, Decrease, value))
      ensures Value() == Committed(old(Value()), Update(old(Value()), index, Decrease, value))
      ensures old(Valid()) ==> Valid()
    {
      o := Apply(index, Decrease, value);
    }

    method SubtractFlat(index: nat, value: real) returns (o: Outcome)
      modifies this
      ensures o == OutcomeOf(UpdateFlat(old(Value()), index, Decrease, value))
      ensures Value() == Committed(old(Value()), UpdateFlat(old(Value()), index, Decrease, value))
      ensures old(Valid()) ==> Valid()
    {
      o := ApplyFlat(index, Decrease, value);
    }

    method Multiply(index: seq<nat>, value: real) returns (o: Outcome)
      modifies this
      ensures o == OutcomeOf(Update(old(Value()), index, Scale, value))
      ensures Value() == Committed(old(Value()), Update(old(Value()), index, Scale, value))
      ensures old(Valid()) ==> Valid()
    {
      o := Apply(index, Scale, value);
    }

    method MultiplyFlat(index: nat, value: real) returns (o: Outcome)
      modifies this
      ensures o == OutcomeOf(UpdateFlat(old(Value()), index, Scale, value))
      ensures Value() == Committed(old(Value()), UpdateFlat(old(Value()), index, Scale, value))
      ensures old(Valid()) ==> Valid()
    {
      o := ApplyFlat(index, Scale, value);
    }

    method Divide(index: seq<nat>, value: real) returns (o: Outcome)
      requires value != 0.0
      modifies this
      ensures o == OutcomeOf(Update(old(Value()), index, Mutation.Divide, value))
      ensures Value() == Committed(old(Value()), Update(old(Value()), index, Mutation.Divide, value))
      ensures old(Valid()) ==> Valid()
    {
      o := Apply(index, Mutation.Divide, value);
    }

    method DivideFlat(index: nat, value: real) returns (o: Outcome)
      requires value != 0.0
      modifies this
      ensures o == OutcomeOf(UpdateFlat(old(Value()), index, Mutation.Divide, value))
      ensures Value() == Committed(old(Value()), UpdateFlat(old(Value()), index, Mutation.Divide, value))
      ensures old(Valid()) ==> Valid()
    {
      o := ApplyFlat(index, Mutation.Divide, value);
    }

    method ShapeAt(i: nat) returns (r: Result<nat>)
      ensures r == Tensors.ShapeAt(Value(), i)
    {
      if i >= |mShape| {
        return Err(Error(OutOfRange, ShapeIndexOutOfRange));
      }
      return Ok(mShape[i]);
    }

    /** dimensionality(): the length of the shape, which is the bound shape(i) checks. */
    function Dimensionality(): (d: nat)
      reads this
      ensures forall i: nat :: Tensors.ShapeAt(Value(), i).Ok? <==> i < d
    {
      |mShape|
    }

    /** capacity(): the length of the data, the bound of the flat accessors; under the
        invariant it is the product of the shape. */
    function Capacity(): (c: nat)
      reads this
      ensures forall i: nat :: Tensors.AtFlat(Value(), i).Ok? <==> i < c
      ensures Valid() ==> c == Product(mShape)
    {
      |mData|
    }

    method Resize(dims: seq<nat>)
      modifies this
      ensures Value() == Resized(old(Value()), dims) && Valid()
    {
      var kept := mData;
      mData := seq(Product(dims), k requires 0 <= k < Product(dims) =>
        if k < |kept| then kept[k] else 0.0);
      mShape := dims;
    }

    method Reshape(dims: seq<nat>) returns (o: Outcome)
      modifies this
      ensures o == OutcomeOf(Reshaped(old(Value()), dims))
      ensures Value() == Committed(old(Value()), Reshaped(old(Value()), dims))
      ensures old(Valid()) ==> Valid()
    {
      if Product(dims) != |mData| {
        return Fail(Error(InvalidArgument, ReshapeMismatch));
      }
      mShape := dims;
      return Pass;
    }
  }
}

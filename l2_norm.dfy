/** The L2 parameter-norm penalty (src/operation/parameter_norm_penalties/L2_Norm.cpp):
    forward, one half of lambda times the sum of squares of the elements that the bias test
    does not skip; backward, lambda times each element that is not skipped. */
module L2Penalty {
  import opened Failures
  import opened Tensors
  import opened TensorBuffers
  import opened Variables

  /** 2^32: the loop counter is a std::uint32_t, so i - 1 wraps around at i = 0. */
  const Word: nat := 0x1_0000_0000

  /** The bias test `(i-1) % shape(0) == 0`: the 32-bit difference, widened to size_t,
      modulo the row count. */
  predicate Skipped(i: nat, rows: nat)
    requires rows > 0
  {
    ((i - 1) % Word) % rows == 0
  }

  function Square(x: real): real
  {
    x * x
  }

  /** The sum of squares after the loop has looked at elements 0 .. n-1. Every pass reads
      shape(0), which throws out_of_range for a tensor without dimensions; a zero row count
      makes the remainder undefined. */
  function PenaltySum(input: Tensor, n: nat): Result<real>
    requires n <= |input.data|
  {
    if n == 0 then Ok(0.0)
    else
      var sum :- PenaltySum(input, n - 1);
      var rows :- ShapeAt(input, 0);
      if rows == 0 then Err(Error(Undefined, ModuloByZero))
      else if Skipped(n - 1, rows) then Ok(sum)
      else Ok(sum + Square(input.data[n - 1]))
  }

  /** L2Norm::f: exactly one input, then a shape-{1} tensor holding 0.5 * lambda * sum. */
  function Penalty(inputs: seq<Variable>, lambda: real): Result<Tensor>
  {
    if |inputs| != 1 then Err(Error(RuntimeError, WrongInputCount))
    else
      var input :- DataOf(inputs[0]);
      var sum :- PenaltySum(input, |input.data|);
      Ok(Tensor([1], [Halved(lambda, sum)]))
  }

  /** The stored penalty value, 0.5 * lambda * sum. */
  function Halved(lambda: real, sum: real): real
  {
    0.5 * lambda * sum
  }

  lemma {:induction false} SumFailureSticks(input: Tensor, n: nat, m: nat)
    requires n <= m <= |input.data| && PenaltySum(input, n).Err?
    ensures PenaltySum(input, m) == PenaltySum(input, n)
  {
    if m > n {
      SumFailureSticks(input, n, m - 1);
    }
  }

  /** The loop of L2Norm::f, accumulating `sum`; the flat reads are in range because the
      loop stops at the capacity. */
  method L2F(inputs: seq<Variable>, lambda: real) returns (r: Result<Tensor>)
    ensures r == Penalty(inputs, lambda)
  {
    if |inputs| != 1 {
      return Err(Error(RuntimeError, WrongInputCount));
    }
    var input :- DataOf(inputs[0]);
    var sum := 0.0;
    for i := 0 to |input.data|
      invariant PenaltySum(input, i) == Ok(sum)
    {
      var rows := ShapeAt(input, 0);
      if rows.Err? {
        SumFailureSticks(input, i + 1, |input.data|);
        return Err(rows.error);
      }
      if rows.value == 0 {
        SumFailureSticks(input, i + 1, |input.data|);
        return Err(Error(Undefined, ModuloByZero));
      }
      if Skipped(i, rows.value) {
        assert PenaltySum(input, i + 1) == Ok(sum);
        continue;
      }
      sum := sum + Square(input.data[i]);
    }
    assert Product([1]) == 1 by { assert [1][1..] == []; }
    var result := new TensorBuffer([1]);
    assert result.Value() == Tensor([1], [0.0]);
    var o := result.SetFlat(0, Halved(lambda, sum));
    assert result.Value() == Tensor([1], [Halved(lambda, sum)]);
    return Ok(result.Value());
  }

  /** The result after the backward loop has written elements 0 .. n-1 of a zero tensor
      shaped like the input: 0 where the bias test skips, lambda * x[i] elsewhere. The
      write is the flat set(i, ...), which throws out_of_range past the result's capacity. */
  function GradientUpTo(input: Tensor, lambda: real, n: nat): Result<Tensor>
    requires n <= |input.data|
  {
    if n == 0 then Ok(Filled(input.shape, 0.0))
    else
      var acc :- GradientUpTo(input, lambda, n - 1);
      var rows :- ShapeAt(input, 0);
      if rows == 0 then Err(Error(Undefined, ModuloByZero))
      else UpdateFlat(acc, n - 1, Assign, GradientElement(input, lambda, n - 1, rows))
  }

  /** The value bprop writes at flat position k: 0 where the bias test skips, lambda * x[k]
      elsewhere. */
  function GradientElement(input: Tensor, lambda: real, k: nat, rows: nat): real
    requires k < |input.data| && rows > 0
  {
    if Skipped(k, rows) then 0.0 else lambda * input.data[k]
  }

  /** L2Norm::bprop: exactly one input and an upstream gradient of shape {1}, whose value is
      never read. */
  function PenaltyGradient(inputs: seq<Variable>, gradient: Tensor, lambda: real): Result<Tensor>
  {
    if |inputs| != 1 then Err(Error(RuntimeError, WrongInputCount))
    else if gradient.shape != [1] then Err(Error(RuntimeError, GradientNotScalar))
    else
      var input :- DataOf(inputs[0]);
      GradientUpTo(input, lambda, |input.data|)
  }

  lemma {:induction false} GradientFailureSticks(input: Tensor, lambda: real, n: nat, m: nat)
    requires n <= m <= |input.data| && GradientUpTo(input, lambda, n).Err?
    ensures GradientUpTo(input, lambda, m) == GradientUpTo(input, lambda, n)
  {
    if m > n {
      GradientFailureSticks(input, lambda, n, m - 1);
    }
  }

  /** The loop of L2Norm::bprop, setting the result elements one by one. */
  method L2Bprop(inputs: seq<Variable>, gradient: Tensor, lambda: real) returns (r: Result<Tensor>)
    ensures r == PenaltyGradient(inputs, gradient, lambda)
  {
    if |inputs| != 1 {
      return Err(Error(RuntimeError, WrongInputCount));
    }
    if gradient.shape != [1] {
      return Err(Error(RuntimeError, GradientNotScalar));
    }
    var input :- DataOf(inputs[0]);
    var result := new TensorBuffer(input.shape);
    for i := 0 to |input.data|
      invariant GradientUpTo(input, lambda, i) == Ok(result.Value())
    {
      var rows := ShapeAt(input, 0);
      if rows.Err? {
        GradientFailureSticks(input, lambda, i + 1, |input.data|);
        return Err(rows.error);
      }
      if rows.value == 0 {
        GradientFailureSticks(input, lambda, i + 1, |input.data|);
        return Err(Error(Undefined, ModuloByZero));
      }
      var value := GradientElement(input, lambda, i, rows.value);
      var o := result.SetFlat(i, value);
      if o.Fail? {
        GradientFailureSticks(input, lambda, i + 1, |input.data|);
        return Err(o.error);
      }
    }
    return Ok(result.Value());
  }

  // ---------------------------------------------------------------------------
  // What the bias test selects

  /** For 1 <= i <= 2^32 the test is i = 1 modulo the row count; at i = 0 the wrapped
      difference 2^32 - 1 is tested instead. */
  lemma SkippedMeaning(i: nat, rows: nat)
    requires rows > 0 && i <= Word
    ensures i >= 1 ==> (Skipped(i, rows) <==> (i - 1) % rows == 0)
    ensures i == 0 ==> (Skipped(i, rows) <==> (Word - 1) % rows == 0)
  {
  }

  /** On a row-major [3, 2] matrix, whose last row holds flat elements 4 and 5, the test
      skips elements 0, 1 and 4 and penalises element 5: it does not pick out a bias row. */
  lemma SkippedOnThreeByTwo()
    ensures Skipped(0, 3) && Skipped(1, 3) && Skipped(4, 3)
    ensures !Skipped(2, 3) && !Skipped(3, 3) && !Skipped(5, 3)
  {
  }

  // ---------------------------------------------------------------------------
  // Properties of the forward penalty and its gradient

  /** A tensor the loops can run over: dimensions, and a non-zero first one. */
  predicate HasRows(input: Tensor)
  {
    |input.shape| > 0 && input.shape[0] > 0
  }

  /** A sum of squares is never negative, and it exists whenever the tensor has rows. */
  lemma {:induction false} PenaltySumNonNegative(input: Tensor, n: nat)
    requires n <= |input.data|
    ensures HasRows(input) ==> PenaltySum(input, n).Ok?
    ensures PenaltySum(input, n).Ok? ==> PenaltySum(input, n).value >= 0.0
  {
    if n > 0 {
      PenaltySumNonNegative(input, n - 1);
    }
  }

  /** With lambda >= 0 the forward penalty is a shape-{1} tensor holding a value >= 0. */
  lemma PenaltyNonNegative(inputs: seq<Variable>, lambda: real)
    requires lambda >= 0.0 && Penalty(inputs, lambda).Ok?
    ensures Penalty(inputs, lambda).value.shape == [1] && |Penalty(inputs, lambda).value.data| == 1
    ensures Penalty(inputs, lambda).value.data[0] >= 0.0
  {
    var input := inputs[0].data.value;
    PenaltySumNonNegative(input, |input.data|);
  }

  lemma {:induction false} GradientUpToCharacterised(input: Tensor, lambda: real, n: nat)
    requires WellFormed(input) && HasRows(input) && n <= |input.data|
    ensures GradientUpTo(input, lambda, n).Ok?
    ensures var g := GradientUpTo(input, lambda, n).value;
      && g.shape == input.shape && |g.data| == |input.data|
      && forall k | 0 <= k < |g.data| ::
           g.data[k] == if k < n && !Skipped(k, input.shape[0]) then lambda * input.data[k] else 0.0
  {
    if n > 0 {
      GradientUpToCharacterised(input, lambda, n - 1);
    }
  }

  /** On one well-formed input with rows, bprop yields a tensor shaped like the input whose
      skipped elements are 0 and whose others are lambda * x[i]; any shape-{1} upstream
      gradient gives the same result. */
  lemma PenaltyGradientOf(inputs: seq<Variable>, gradient: Tensor, lambda: real)
    requires |inputs| == 1 && inputs[0].data.Some?
    requires WellFormed(inputs[0].data.value) && HasRows(inputs[0].data.value)
    requires gradient.shape == [1]
    ensures var input, r := inputs[0].data.value, PenaltyGradient(inputs, gradient, lambda);
      && r.Ok? && r.value.shape == input.shape && |r.value.data| == |input.data|
      && forall k | 0 <= k < |input.data| ::
           r.value.data[k] == if Skipped(k, input.shape[0]) then 0.0 else lambda * input.data[k]
  {
    GradientUpToCharacterised(inputs[0].data.value, lambda, |inputs[0].data.value.data|);
  }

  /** The first n terms of the inner product of two buffers. */
  function Dot(x: seq<real>, y: seq<real>, n: nat): real
    requires n <= |x| && n <= |y|
  {
    if n == 0 then 0.0 else Dot(x, y, n - 1) + x[n - 1] * y[n - 1]
  }

  /** Which flat elements the bias test skips. */
  function SkipMask(input: Tensor): (mask: seq<bool>)
    requires HasRows(input)
    ensures |mask| == |input.data|
  {
    seq(|input.data|, k requires 0 <= k < |input.data| => Skipped(k, input.shape[0]))
  }

  /** The sum of squares of the first n elements the mask does not skip. */
  function MaskedSquares(x: seq<real>, mask: seq<bool>, n: nat): real
    requires n <= |x| && n <= |mask|
  {
    if n == 0 then 0.0 else MaskedSquares(x, mask, n - 1) + (if mask[n - 1] then 0.0 else Square(x[n - 1]))
  }

  lemma {:induction false} PenaltySumIsMasked(input: Tensor, n: nat)
    requires HasRows(input) && n <= |input.data|
    ensures PenaltySum(input, n) == Ok(MaskedSquares(input.data, SkipMask(input), n))
  {
    if n > 0 {
      PenaltySumIsMasked(input, n - 1);
    }
  }

  lemma {:induction false} DotWithMaskedGradient(x: seq<real>, g: seq<real>, mask: seq<bool>, lambda: real, n: nat)
    requires n <= |x| == |g| == |mask|
    requires forall k | 0 <= k < |g| :: g[k] == if mask[k] then 0.0 else lambda * x[k]
    ensures Dot(x, g, n) == lambda * MaskedSquares(x, mask, n)
  {
    if n > 0 {
      DotWithMaskedGradient(x, g, mask, lambda, n - 1);
      var k := n - 1;
      var prev := MaskedSquares(x, mask, k);
      if !mask[k] {
        calc {
          Dot(x, g, n);
          lambda * prev + x[k] * (lambda * x[k]);
          lambda * (prev + Square(x[k]));
        }
      }
    }
  }

  /** f and bprop agree: the penalty is homogeneous of degree two, so it equals one half of
      the inner product of the input with its gradient. */
  lemma PenaltyIsHalfInputDotGradient(inputs: seq<Variable>, gradient: Tensor, lambda: real)
    requires |inputs| == 1 && inputs[0].data.Some?
    requires WellFormed(inputs[0].data.value) && HasRows(inputs[0].data.value)
    requires gradient.shape == [1]
    ensures Penalty(inputs, lambda).Ok? && PenaltyGradient(inputs, gradient, lambda).Ok?
    ensures var x := inputs[0].data.value.data;
      Penalty(inputs, lambda).value.data == [0.5 * Dot(x, PenaltyGradient(inputs, gradient, lambda).value.data, |x|)]
  {
    var input := inputs[0].data.value;
    var g := MaskedGradient(inputs, gradient, lambda);
    PenaltySumIsMasked(input, |input.data|);
    HalfDot(input.data, g, SkipMask(input), lambda);
  }

  /** Half the inner product of x with its masked gradient is the stored penalty value. */
  lemma HalfDot(x: seq<real>, g: seq<real>, mask: seq<bool>, lambda: real)
    requires |x| == |g| == |mask|
    requires forall k | 0 <= k < |g| :: g[k] == if mask[k] then 0.0 else lambda * x[k]
    ensures Halved(lambda, MaskedSquares(x, mask, |x|)) == 0.5 * Dot(x, g, |x|)
  {
    DotWithMaskedGradient(x, g, mask, lambda, |x|);
    HalvedProduct(lambda, MaskedSquares(x, mask, |x|), Dot(x, g, |x|));
  }

  /** The gradient backprop returns, read through the mask of skipped elements. */
  lemma MaskedGradient(inputs: seq<Variable>, gradient: Tensor, lambda: real) returns (g: seq<real>)
    requires |inputs| == 1 && inputs[0].data.Some?
    requires WellFormed(inputs[0].data.value) && HasRows(inputs[0].data.value)
    requires gradient.shape == [1]
    ensures PenaltyGradient(inputs, gradient, lambda).Ok? && g == PenaltyGradient(inputs, gradient, lambda).value.data
    ensures var input := inputs[0].data.value;
      && |g| == |input.data|
      && forall k | 0 <= k < |g| :: g[k] == if SkipMask(input)[k] then 0.0 else lambda * input.data[k]
  {
    PenaltyGradientOf(inputs, gradient, lambda);
    g := PenaltyGradient(inputs, gradient, lambda).value.data;
  }

  lemma HalvedProduct(lambda: real, sum: real, dot: real)
    requires dot == lambda * sum
    ensures Halved(lambda, sum) == 0.5 * dot
  {
  }
}

/** The error-rate metric (operation/performance/error_rate.hpp): for every row of the
    prediction it takes the first column holding the row maximum as the predicted class and
    counts the rows whose predicted class differs from the target. The source prints the
    count divided by the row count and stores nothing; the model returns the count. */
module ErrorRates {
  import opened Failures
  import opened Tensors
  import opened Variables

  /** The running maximum and its column after the inner loop has looked at columns
      0 .. n-1 of row i; the maximum is replaced only by a strictly larger value, so the
      earlier column wins a tie. */
  function Scan(pred: Tensor, i: nat, n: nat): Result<(real, nat)>
  {
    if n <= 1 then
      var first :- At(pred, [i, 0]);
      Ok((first, 0))
    else
      var best :- Scan(pred, i, n - 1);
      var v :- At(pred, [i, n - 1]);
      if v > best.0 then Ok((v, n - 1)) else Ok(best)
  }

  /** The predicted class of row i: the inner loop runs over shape(1) columns once
      pred[i][0] has been read, which succeeds only on a two-dimensional tensor. */
  function Predicted(pred: Tensor, i: nat): Result<nat>
  {
    var first :- At(pred, [i, 0]);
    var best :- Scan(pred, i, pred.shape[1]);
    Ok(best.1)
  }

  /** The error count after the first n rows. The target is read with the flat at(i),
      because at({i}) with one braced element selects the flat overload. */
  function CountErrors(pred: Tensor, target: Tensor, n: nat): Result<nat>
  {
    if n == 0 then Ok(0)
    else
      var errors :- CountErrors(pred, target, n - 1);
      var k :- Predicted(pred, n - 1);
      var expected :- AtFlat(target, n - 1);
      Ok(if k as real != expected then errors + 1 else errors)
  }

  /** ErrorRate::f: two inputs, a target with one column and as many rows as the
      prediction, then the count over all rows. */
  function ErrorCount(inputs: seq<Variable>): Result<nat>
  {
    if |inputs| != 2 then Err(Error(RuntimeError, WrongInputCount))
    else
      var target :- DataOf(inputs[1]);
      var targetCols :- ShapeAt(target, 1);
      if targetCols != 1 then Err(Error(RuntimeError, TargetNotColumn))
      else
        var pred :- DataOf(inputs[0]);
        var predRows :- ShapeAt(pred, 0);
        var targetRows :- ShapeAt(target, 0);
        if predRows != targetRows then Err(Error(RuntimeError, RowCountMismatch))
        else CountErrors(pred, target, predRows)
  }

  /** Once a row fails, every longer prefix fails with the same error. */
  lemma {:induction false} CountFailureSticks(pred: Tensor, target: Tensor, n: nat, m: nat)
    requires n <= m && CountErrors(pred, target, n).Err?
    ensures CountErrors(pred, target, m) == CountErrors(pred, target, n)
  {
    if m > n {
      CountFailureSticks(pred, target, n, m - 1);
    }
  }

  /** The nested loops of ErrorRate::f, updating max, maxIndex and error. Neither the inputs
      nor any variable's data are written. */
  method ErrorRateF(inputs: seq<Variable>) returns (r: Result<nat>)
    ensures r == ErrorCount(inputs)
  {
    if |inputs| != 2 {
      return Err(Error(RuntimeError, WrongInputCount));
    }
    var target :- DataOf(inputs[1]);
    var targetCols :- ShapeAt(target, 1);
    if targetCols != 1 {
      return Err(Error(RuntimeError, TargetNotColumn));
    }
    var pred :- DataOf(inputs[0]);
    var predRows :- ShapeAt(pred, 0);
    var targetRows := target.shape[0]; // shape(1) succeeded, so shape(0) cannot throw
    if predRows != targetRows {
      return Err(Error(RuntimeError, RowCountMismatch));
    }
    var error := 0;
    for i := 0 to predRows
      invariant CountErrors(pred, target, i) == Ok(error)
    {
      var first := At(pred, [i, 0]);
      if first.Err? {
        CountFailureSticks(pred, target, i + 1, predRows);
        return Err(first.error);
      }
      var max, maxIndex := first.value, 0;
      var cols := pred.shape[1];
      for j := 1 to cols
        invariant Scan(pred, i, j) == Ok((max, maxIndex))
      {
        var v := At(pred, [i, j]);
        if v.Err? {
          assert Scan(pred, i, j + 1).Err?;
          ScanFailureSticks(pred, i, j + 1, cols);
          CountFailureSticks(pred, target, i + 1, predRows);
          return Err(v.error);
        }
        if v.value > max {
          max, maxIndex := v.value, j;
        }
      }
      var expected := AtFlat(target, i);
      if expected.Err? {
        CountFailureSticks(pred, target, i + 1, predRows);
        return Err(expected.error);
      }
      if maxIndex as real != expected.value {
        error := error + 1;
      }
    }
    return Ok(error);
  }

  lemma {:induction false} ScanFailureSticks(pred: Tensor, i: nat, n: nat, m: nat)
    requires 1 <= n <= m && Scan(pred, i, n).Err?
    ensures Scan(pred, i, m) == Scan(pred, i, n)
  {
    if m > n {
      ScanFailureSticks(pred, i, n, m - 1);
    }
  }

  /** k is the first column holding the maximum of row i. */
  predicate IsFirstMax(pred: Tensor, i: nat, k: nat)
    requires Matrix(pred) && i < Rows(pred)
  {
    && k < Cols(pred)
    && (forall j | 0 <= j < Cols(pred) :: Elem(pred, i, j) <= Elem(pred, i, k))
    && (forall j | 0 <= j < k :: Elem(pred, i, j) < Elem(pred, i, k))
  }

  lemma {:induction false} ScanFindsFirstMax(pred: Tensor, i: nat, n: nat)
    requires Matrix(pred) && i < Rows(pred) && 1 <= n <= Cols(pred)
    ensures Scan(pred, i, n).Ok?
    ensures var (m, k) := Scan(pred, i, n).value;
      && k < n && m == Elem(pred, i, k)
      && (forall j | 0 <= j < n :: Elem(pred, i, j) <= m)
      && (forall j | 0 <= j < k :: Elem(pred, i, j) < m)
  {
    AtMatrix(pred, i, n - 1);
    if n > 1 {
      ScanFindsFirstMax(pred, i, n - 1);
    }
  }

  /** On a matrix with at least one column, the predicted class of every row is the first
      column holding the row maximum. */
  lemma PredictedIsFirstMax(pred: Tensor, i: nat)
    requires Matrix(pred) && i < Rows(pred) && 0 < Cols(pred)
    ensures Predicted(pred, i).Ok? && IsFirstMax(pred, i, Predicted(pred, i).value)
  {
    AtMatrix(pred, i, 0);
    ScanFindsFirstMax(pred, i, Cols(pred));
  }

  /** The error count never exceeds the number of rows looked at. */
  lemma {:induction false} CountErrorsBounded(pred: Tensor, target: Tensor, n: nat)
    requires CountErrors(pred, target, n).Ok?
    ensures CountErrors(pred, target, n).value <= n
  {
    if n > 0 {
      CountErrorsBounded(pred, target, n - 1);
    }
  }

  /** The rows among the first n whose first-maximum column differs from the target. */
  function Mismatched(pred: Tensor, target: Tensor, n: nat): set<nat>
    requires Matrix(pred) && 0 < Cols(pred) && n <= Rows(pred) && n <= |target.data|
  {
    set i: nat | i < n && Predicted(pred, i).Ok? && Predicted(pred, i).value as real != target.data[i]
  }

  /** Row m joins the mismatched rows exactly when it is one. */
  lemma MismatchedStep(pred: Tensor, target: Tensor, m: nat)
    requires Matrix(pred) && 0 < Cols(pred) && m < Rows(pred) && m < |target.data|
    ensures Predicted(pred, m).Ok?
    ensures Mismatched(pred, target, m + 1) == Mismatched(pred, target, m) +
      (if Predicted(pred, m).value as real != target.data[m] then {m} else {})
  {
    PredictedIsFirstMax(pred, m);
  }

  /** Row m adds one to the count exactly when it is mismatched. */
  lemma CountErrorsStep(pred: Tensor, target: Tensor, m: nat)
    requires m < |target.data|
    requires CountErrors(pred, target, m).Ok? && Predicted(pred, m).Ok?
    ensures CountErrors(pred, target, m + 1) == Ok(CountErrors(pred, target, m).value +
      if Predicted(pred, m).value as real != target.data[m] then 1 else 0)
  {
  }

  lemma {:induction false} CountErrorsCountsMismatches(pred: Tensor, target: Tensor, n: nat)
    requires Matrix(pred) && 0 < Cols(pred) && n <= Rows(pred) && n <= |target.data|
    ensures CountErrors(pred, target, n) == Ok(|Mismatched(pred, target, n)|)
  {
    if n > 0 {
      var m := n - 1;
      CountErrorsCountsMismatches(pred, target, m);
      MismatchedStep(pred, target, m);
      CountErrorsStep(pred, target, m);
      var before, after := Mismatched(pred, target, m), Mismatched(pred, target, m + 1);
      if Predicted(pred, m).value as real != target.data[m] {
        assert m !in before && after == before + {m};
        assert |after| == |before| + 1;
      } else {
        assert after == before;
      }
    }
  }

  /** ErrorRate::f on a prediction matrix and a target column of as many rows: the count is
      the number of rows whose first-maximum column differs from the target, so it lies
      between 0 and the row count. */
  lemma ErrorCountOfMatrices(inputs: seq<Variable>)
    requires |inputs| == 2 && inputs[0].data.Some? && inputs[1].data.Some?
    requires var pred, target := inputs[0].data.value, inputs[1].data.value;
      && Matrix(pred) && 0 < Cols(pred) && Matrix(target) && Cols(target) == 1
      && Rows(target) == Rows(pred)
    ensures var pred, target := inputs[0].data.value, inputs[1].data.value;
      && ErrorCount(inputs) == Ok(|Mismatched(pred, target, Rows(pred))|)
      && ErrorCount(inputs).value <= Rows(pred)
  {
    var pred, target := inputs[0].data.value, inputs[1].data.value;
    CountErrorsCountsMismatches(pred, target, Rows(pred));
    CountErrorsBounded(pred, target, Rows(pred));
  }
}

# A verified model of a small reverse-mode autodiff engine

This project models the core of a C++ neural-network library. The core has three parts.

- **The computation graph** (`graph.h`, `variable.h`). A graph is an arena of variables,
  indexed by id. Each variable holds an optional operation, the ids of its inputs (parents)
  and consumers (children), and an optional tensor.
  - `forward` sorts the variables topologically with a depth-first search over consumer
    edges. It then runs each operation's `f` in that order.
  - `backprop` seeds a gradient table with all-ones tensors at the registered outputs.
  - `build_grad` then fills in the entry of each target by memoised recursion. A
    variable's gradient is the element-wise sum of what every consumer's `bprop` hands
    back for it.
- **The tensor buffer**, in two generations:
  - `datatypes/tensor.hpp`, with its multi-index and flat accessors and in-place mutators;
  - the older `tensor.h`, with a checked `data()`, signed multi-indices and `transpose`.

  Both hold a flat buffer and a shape. An element's offset is computed in row-major order.
- **The operations and the optimizer**:
  - the matrix product and its two-sided gradient;
  - one-hot encoding;
  - the arg-max error count;
  - the L2 parameter penalty and its gradient;
  - the zero gradient of the loss functions;
  - the primitive SGD update, with a decaying learning rate.

How the model is built:

- **Values.** `Tensors.Tensor` is a value (`shape: seq<nat>`, `data: seq<real>`). Every
  accessor and mutator is specified by a pure function on it.
- **Classes.** The classes whose fields the C++ updates in place are Dafny classes:
  `TensorBuffers.TensorBuffer`, `LegacyTensors.LegacyTensor`, `Graphs.Graph`,
  `TopologicalSort.Search`, `Optimizers.PrimitiveSgd` and `Variables.Counter`. Their
  methods are proved against those functions.
- **Exceptions** become `Failures.Result` and `Failures.Outcome` values. Each failure is
  tagged with the C++ exception class it surfaces as (`InvalidArgument`, `OutOfRange`,
  `RuntimeError`). Behaviour the language leaves undefined, or that ends the process, is
  tagged `Undefined`. Examples: a null dereference, a division by a zero dimension, or an
  exception escaping a worker thread.
- **Loops.** Each loop is a method whose invariant ties its state to a recursive
  specification function over the first `i` iterations. The properties the code promises
  are proved about those functions as separate lemmas.

## Model

| member | source | states |
|---|---|---|
| Tensors.Filled | datatypes/tensor.hpp:186-198 | A fresh tensor stores the given shape and holds product(shape) elements, every one equal to the fill value (0 for the one-argument constructor). |
| TensorBuffers.TensorBuffer.constructor | datatypes/tensor.hpp:186-191 | The one-argument constructor leaves the buffer holding product(dims) zeros under the given shape, with length = product(shape). |
| TensorBuffers.TensorBuffer.WithValue | datatypes/tensor.hpp:193-198 | The two-argument constructor leaves product(dims) copies of the value under the given shape. |
| Tensors.ComputeOffset | datatypes/tensor.hpp:171-179 | The block-size loop computes the row-major offset: the sum of index[i] times the product of the dimensions after i. |
| Tensors.OffsetInBounds | datatypes/tensor.hpp:171-183 | When every coordinate is inside its dimension, the offset lies in [0, product(shape)). |
| Tensors.OffsetOfPair | datatypes/tensor.hpp:171-179 | For a two-dimensional shape [rows, cols] the offset of [i, j] is i * cols + j. |
| TensorBuffers.TensorBuffer.CalculateIndex | datatypes/tensor.hpp:165-184 | Fails with invalid_argument when the index length differs from the dimensionality, and with out_of_range when the offset is past the data; coordinates are not checked one by one; a zero dimension is undefined. |
| TensorBuffers.TensorBuffer.At | datatypes/tensor.hpp:200-204 | The multi-index read returns the element at the computed offset, or the failure calculateIndex raises. |
| TensorBuffers.TensorBuffer.AtFlat | datatypes/tensor.hpp:206-214 | The flat read fails with out_of_range on an empty tensor or an index past the data, and otherwise returns that element. |
| TensorBuffers.TensorBuffer.Apply | datatypes/tensor.hpp:216-275 | The multi-index mutators change the buffer exactly as the value-level update does, leave it untouched on failure and keep length = product(shape). |
| TensorBuffers.TensorBuffer.ApplyFlat | datatypes/tensor.hpp:222-284 | The flat mutators fail with out_of_range past the data, change nothing on failure and otherwise change that one element. |
| TensorBuffers.TensorBuffer.Set | datatypes/tensor.hpp:216-220 | Multi-index set: on success the addressed element becomes the value; on failure the buffer is unchanged. |
| TensorBuffers.TensorBuffer.SetFlat | datatypes/tensor.hpp:222-228 | Flat set: element index becomes the value, or out_of_range with nothing changed. |
| TensorBuffers.TensorBuffer.Add | datatypes/tensor.hpp:230-234 | Multi-index add increases the addressed element by the value. |
| TensorBuffers.TensorBuffer.AddFlat | datatypes/tensor.hpp:236-242 | Flat add increases element index by the value, or fails with out_of_range. |
| TensorBuffers.TensorBuffer.Subtract | datatypes/tensor.hpp:244-248 | Multi-index subtract decreases the addressed element by the value. |
| TensorBuffers.TensorBuffer.SubtractFlat | datatypes/tensor.hpp:250-256 | Flat subtract decreases element index by the value, or fails with out_of_range. |
| TensorBuffers.TensorBuffer.Multiply | datatypes/tensor.hpp:258-262 | Multi-index multiply scales the addressed element by the value. |
| TensorBuffers.TensorBuffer.MultiplyFlat | datatypes/tensor.hpp:264-270 | Flat multiply scales element index by the value, or fails with out_of_range. |
| TensorBuffers.TensorBuffer.Divide | datatypes/tensor.hpp:272-276 | Multi-index divide divides the addressed element by a non-zero value. |
| TensorBuffers.TensorBuffer.DivideFlat | datatypes/tensor.hpp:278-284 | Flat divide divides element index by a non-zero value, or fails with out_of_range. |
| Tensors.UpdateChangesOneElement | datatypes/tensor.hpp:216-275 | A multi-index mutation succeeds exactly when calculateIndex does, fails with its error otherwise, and changes only the addressed element, keeping the shape and the length. |
| Tensors.UpdateFlatChangesOneElement | datatypes/tensor.hpp:222-284 | A flat mutation fails exactly when the index is at or past the length (out_of_range), and otherwise changes only that element. |
| Tensors.SetThenAt | datatypes/tensor.hpp:200-220 | After a successful multi-index set, at on the same index returns the value written. |
| Tensors.SetFlatThenAtFlat | datatypes/tensor.hpp:206-228 | After a successful flat set, the flat at on the same index returns the value written. |
| Tensors.UpdateKeepsWellFormed | datatypes/tensor.hpp:216-275 | A mutation keeps the invariant length = product(shape). |
| Tensors.ShapeAt | datatypes/tensor.hpp:292-298 | shape(i) succeeds exactly when i is below the dimensionality and returns that dimension; otherwise out_of_range. |
| TensorBuffers.TensorBuffer.ShapeAt | datatypes/tensor.hpp:292-298 | The buffer's shape(i) agrees with the checked value-level shape(i). |
| TensorBuffers.TensorBuffer.Dimensionality | datatypes/tensor.hpp:300-304 | dimensionality() is the number of dimensions: shape(i) succeeds exactly for i below it. |
| TensorBuffers.TensorBuffer.Capacity | datatypes/tensor.hpp:306-310 | capacity() is the number of elements: the flat at(i) succeeds exactly for i below it. Under the class invariant it equals product(shape). |
| TensorBuffers.TensorBuffer.Resize | datatypes/tensor.hpp:312-317 | resize replaces the shape and re-establishes length = product(shape). |
| Tensors.ResizeKeepsPrefix | datatypes/tensor.hpp:312-317 | A resized tensor has the new shape and product(new shape) elements; the old elements that fit are kept and new ones are 0. |
| TensorBuffers.TensorBuffer.Reshape | datatypes/tensor.hpp:319-325 | reshape either replaces only the shape or fails and leaves the buffer unchanged. |
| Tensors.ReshapeKeepsData | datatypes/tensor.hpp:319-325 | reshape succeeds exactly when product(new shape) equals the capacity; otherwise it fails with invalid_argument; on success the data is unchanged and the shape replaced. |
| Tensors.CheckedData | tensor.h:16-21 | data() succeeds exactly when the length equals product(shape) and then returns the buffer; otherwise invalid_argument. |
| LegacyTensors.LegacyTensor.CheckedData | tensor.h:44 | The class's data() agrees with the checked value-level data(). |
| LegacyTensors.LegacyTensor.constructor | tensor.h:71-87 | The constructor holds product(dims) elements equal to the value, or all equal to 1 when random initialisation is requested, with length = product(shape). |
| LegacyTensors.LegacyTensor.Locate | tensor.h:53-66 | The signed index loop of at and set: rank mismatch is invalid_argument, and a negative or too large offset is out_of_range. |
| LegacyTensors.LegacyTensor.At | tensor.h:53-68 | at returns the element at the located offset, or the failure. |
| LegacyTensors.LegacyTensor.Set | tensor.h:94-109 | set writes only the addressed element, and nothing on failure. |
| Tensors.SetMatrixElem | tensor.h:94-109 | Setting element [i, j] of a matrix succeeds and changes that element only. |
| LegacyTensors.LegacyShapeAt | tensor.h:40 | The unchecked shape(i) returns dimension i, and an index past the dimensionality is undefined. |
| LegacyTensors.LegacyTensor.ShapeAt | tensor.h:40 | The class's shape(i) agrees with the unchecked value-level shape(i). |
| LegacyTensors.LegacyTensor.Resize | tensor.h:43 | resize sets the shape and makes the length product(shape), keeping the prefix. |
| LegacyTensors.LegacyTensor.Transpose | tensor.h:114-130 | The nested loop builds exactly the value-level transpose, and the source tensor is left unchanged. |
| LegacyTensors.TransposeStep | tensor.h:121-127 | One write of the inner loop moves the loop state from column j to column j+1. |
| LegacyTensors.TransposeNextRow | tensor.h:121-127 | Finishing a row of the outer loop is the same state as starting the next row. |
| Tensors.TransposeShape | tensor.h:114-130 | transpose fails with invalid_argument unless the tensor is 2-D. Its result has shape [s1, s0] and the same length. It always succeeds on a well-formed matrix. |
| Tensors.TransposeMovesElements | tensor.h:121-127 | Element [j, i] of the transpose is element [i, j] of the source. |
| Tensors.TransposeTwice | tensor.h:114-130 | Transposing a matrix twice gives back the original shape and data. |
| Variables.DataOf | variable.h:88-91 | Dereferencing a variable's data succeeds exactly when the pointer is set, and yields that tensor. |
| Variables.Counter.constructor | variable.h:101 | The id counter starts at 0. |
| Variables.Counter.Create | variable.h:51-58 | A new variable gets the current counter as its id and stores op, inputs, consumers and data as given; the counter then increments, so ids are distinct and increasing. |
| Graphs.Graph.constructor | graph.h:13-14 | A new graph has no variables and no outputs. |
| Graphs.Graph.AddVariable | graph.h:52-57 | add_variable appends exactly one entry, leaves the earlier entries and the outputs untouched, and returns the variable appended. |
| Graphs.Graph.AddOutput | graph.h:64-68 | add_output appends the id and returns the old output count, which now indexes it. |
| Graphs.Graph.GetOutput | graph.h:74-77 | get_output returns the data of the output at that index; an index past the outputs is undefined. |
| Graphs.Graph.GetVariables | graph.h:198-201 | get_variables returns the arena as it is. |
| Graphs.Graph.AddConsumer | variable.h:72-75 | An append through get_consumers() changes only that variable's consumer list, and later reads see it. |
| Graphs.Graph.AddInput | variable.h:80-83 | An append through get_inputs() changes only that variable's input list, and later reads see it. |
| Graphs.Graph.SetData | variable.h:88-91 | An assignment through get_data() replaces only that variable's data. |
| TopologicalSort.Search.constructor | graph.h:83-84 | The search starts with every visited flag false and an empty sorted list. |
| TopologicalSort.Search.Visit | graph.h:86-98 | dfs marks v visited and pushes it after all of its consumers. It only pushes newly visited nodes, each once. On a ranked graph every node pushed comes after its consumers. |
| TopologicalSort.Push | graph.h:97 | Pushing a visited node whose consumers are all visited keeps the search invariant, and pops it from the set of nodes being searched. |
| TopologicalSort.PushOrdered | graph.h:97 | On a ranked graph, a node pushed after its consumers keeps every consumer before its producer in the sorted list. |
| TopologicalSort.AllPushed | graph.h:100-106 | Once the outer loop has visited every variable and nothing is left on the stack, every id is in the sorted list. |
| TopologicalSort.ReversedPermutation | graph.h:107 | Reversing a duplicate-free list that holds every id below n gives a permutation of 0..n-1. |
| TopologicalSort.ReversedOrdered | graph.h:107 | Reversing a list in which consumers come first puts every variable before each of its consumers. |
| TopologicalSort.TopoSort | graph.h:81-109 | __topo_sort returns every variable exactly once. On an acyclic graph every variable precedes each of its consumers. |
| Graphs.Graph.TopoSort | graph.h:81-109 | The graph's sort is a permutation of its ids and is topologically ordered when the graph is acyclic. |
| GraphStructure.InputsOf | graph.h:119 | The inputs handed to an operation are exactly the variables its input ids name, in order. |
| GraphStructure.Reversed | graph.h:107 | std::reverse puts element |s|-1-i at position i. |
| GraphStructure.PermutationLength | graph.h:100-107 | A permutation of 0..n-1 has length n. |
| ForwardPass.Step | graph.h:114-122 | Running one variable changes at most that variable's data. A variable without an operation, or whose f fails, changes nothing. |
| ForwardPass.Run | graph.h:114-122 | After the first n steps of forward, only variables with an operation that appear in the first n positions of the order can have new data. |
| ForwardPass.RunFailureSticks | graph.h:114-122 | Once an f has thrown, no later variable is run and the data stays as it was at the throw. |
| ForwardPass.RunPassPrefix | graph.h:114-122 | If the whole loop completes without a throw, so does every prefix of it. |
| ForwardPass.StepEvaluates | graph.h:117-120 | After a successful step, the variable's data is what its operation computes from its current inputs. |
| ForwardPass.RunEvaluates | graph.h:113-122 | In topological order each operation sees inputs that are already final. So after n successful steps every variable among the first n holds the value its operation computes from the final inputs. |
| ForwardPass.ForwardEvaluatesAll | graph.h:111-123 | After a complete forward pass over a topological order, every variable with an operation holds f of its inputs' final data. |
| Graphs.Graph.ForwardStep | graph.h:116-121 | The graph's step stores exactly the data the value-level step computes and leaves the outputs alone. |
| Graphs.Graph.RunInOrder | graph.h:114-122 | The loop of forward over a given order leaves the arena's data column equal to the value-level run and returns its outcome. |
| Graphs.Graph.Forward | graph.h:111-123 | forward runs each operation once, in topological order. The arena ends up as that run leaves it. On an acyclic, wired graph a completed run leaves every variable evaluated. |
| Operations.RunForward | graph.h:120 | The dispatch of f over the operation kinds computes what each operation's own specification says. |
| Operations.RunBackward | graph.h:173 | The dispatch of bprop over the operation kinds computes what each operation's own specification says. |
| Backpropagation.SeedOf | graph.h:130-134 | An output's seed has the output data's shape, with 1 in the first size() elements and 0 after them; writing past a buffer of product(shape) elements is undefined. |
| Backpropagation.SeedOfWellFormed | graph.h:130-134 | For well-formed data the seed is the all-ones tensor of that shape. |
| Backpropagation.MakeSeed | graph.h:130-134 | The seeding loop builds exactly that seed. |
| Backpropagation.SeedsSeeded | graph.h:127-135 | After seeding the first n outputs, the table has an entry exactly at those outputs' ids. Each entry is the seed of that output's data. |
| Backpropagation.SeedsShaped | graph.h:127-135 | Every seeded entry has its variable's data shape. |
| Backpropagation.SeedsFailureSticks | graph.h:128-135 | A failure while seeding an output ends the seeding with that failure. |
| Graphs.Graph.SeedOne | graph.h:130-134 | Seeding one more output extends the table exactly as the value-level seeding does. |
| Graphs.Graph.SeedTable | graph.h:127-135 | The graph's seeding loop produces exactly the value-level seeded table, or its failure. |
| Backpropagation.Sum | graph.h:188-191 | Adding a contribution into the running gradient keeps the shape. For well-formed tensors each element becomes the sum of the two. The size() check of data() is the only failure. |
| Backpropagation.SumCommutes | graph.h:188-191 | Element-wise accumulation does not depend on which tensor is the accumulator. |
| Backpropagation.SumZero | graph.h:188-191 | Adding a zero contribution, such as a loss function's, leaves the gradient unchanged. |
| Backpropagation.Accumulate | graph.h:188-191 | The accumulation loop computes exactly the element-wise sum. |
| Backpropagation.Contribute | graph.h:174-191 | A contribution not shaped like the focus data is refused with runtime_error. The accepted running gradient is always shaped like the focus. |
| Backpropagation.ShapesNeverDiffer | graph.h:182-185 | Because every accepted contribution already has the focus shape, the "gradient shapes do not match" throw can never be reached. |
| Backpropagation.BuildGradChecks | graph.h:153-164 | A memoised focus leaves the table as it is. A new focus without consumers throws "no consumers". One with a null data pointer is undefined. One with dimensionless data throws "no data". |
| Backpropagation.BuildGradGrows | graph.h:150-196 | build_grad never replaces an existing entry, so seeded outputs are never recomputed. Every entry it adds has its variable's data shape. |
| Backpropagation.SweepGrows | graph.h:167-194 | The loop over consumers, building each consumer's entry first, only adds entries, each shaped like its variable's data. |
| Backpropagation.SweepSums | graph.h:167-194 | After n consumers, n contributions have been collected, all shaped like the focus data. The running gradient is null exactly when n = 0. When all contributions are well formed, each element is the sum of the contributions' elements. |
| Backpropagation.SweepFailureSticks | graph.h:167-194 | A throw in the consumer loop ends the loop with that failure. |
| Backpropagation.SumStep | graph.h:178-191 | Folding one more accepted contribution keeps the running gradient equal to the element-wise sum of all contributions so far. |
| Backpropagation.StoredGradientIsSum | graph.h:166-195 | When build_grad computes a new entry, the focus has data and consumers. The stored entry is the running sum over all consumers, with one contribution per consumer, each shaped like the focus. For well-formed contributions each element is the sum of theirs. |
| Graphs.Graph.BuildGrad | graph.h:150-196 | The graph's memoised recursion returns exactly the value-level table, or its failure. |
| Graphs.Graph.SweepAll | graph.h:166-194 | The graph's consumer loop returns exactly the value-level table and running gradient, or the first failure. |
| Graphs.Graph.SweepOne | graph.h:169-192 | One consumer iteration of the graph advances the loop state exactly as the value-level loop does. |
| Backpropagation.BuildAllGrows | graph.h:137-140 | Building the targets in order only adds entries, each shaped like its variable's data. Every target built has an entry. |
| Backpropagation.BuildAllFailureSticks | graph.h:137-140 | A throw while building one target ends the target loop with that failure. |
| Graphs.Graph.BuildTargets | graph.h:137-140 | The graph's target loop builds exactly the value-level table, or its failure. |
| Backpropagation.BackpropShapes | graph.h:125-148 | backprop returns one gradient per target, in target order, each shaped like its target's data. |
| Backpropagation.OutputTargetGetsSeed | graph.h:127-147 | A target that is also a registered output gets back its seed, never a recomputed sum: all ones for well-formed data. |
| Graphs.Graph.Backprop | graph.h:125-148 | The graph's backprop returns exactly the value-level result: one gradient per target, or the first failure. |
| LinearAlgebra.RowDot | operation/linear_algebra/matmul.h:33-39 | The inner loop of blockmul succeeds exactly when every element it reads is readable. It then returns the left-to-right sum of left[i][j] * right[j][k]. Otherwise the worker aborts. |
| LinearAlgebra.BlockMul | operation/linear_algebra/matmul.h:31-42 | blockmul(k) succeeds exactly when column k can be computed. It then sets result[i][k] to the dot product of row i and column k for every row, and writes no other column. |
| LinearAlgebra.MatMul | operation/linear_algebra/matmul.h:50-66 | The column loop computes exactly the specified product: shape [left.shape(0), right.shape(1)], every column filled once, or the abort of a failing worker. |
| LinearAlgebra.MatMulOfMatrices | operation/linear_algebra/matmul.h:50-66 | For matrices with matching inner dimensions the product succeeds. It has shape [rows of left, columns of right], and element [i][k] is the row-times-column sum. |
| LinearAlgebra.DotOfMatrices | operation/linear_algebra/matmul.h:35-39 | The accumulated sum equals the mathematical row-times-column sum. |
| LinearAlgebra.Operands | operation/linear_algebra/matmul.h:76-84 | The shared checks pass only for exactly two inputs with data, handing back those two tensors. |
| LinearAlgebra.ChecksAgree | operation/linear_algebra/matmul.h:76-102 | f and bprop fail on the same inputs with the same error. The wrong number of inputs, or inner dimensions that differ, is invalid_argument. |
| LinearAlgebra.F | operation/linear_algebra/matmul.h:74-86 | f computes exactly the specified product of its two checked inputs. |
| LinearAlgebra.ForwardOfMatrices | operation/linear_algebra/matmul.h:74-86 | For two compatible matrices f succeeds with their matrix product. |
| LinearAlgebra.BackProp | operation/linear_algebra/matmul.h:93-115 | bprop computes gradient times inputs[1] transposed when the focus is inputs[0], and inputs[0] transposed times gradient otherwise. |
| LinearAlgebra.BpropShapedLikeFocus | operation/linear_algebra/matmul.h:105-114 | With a gradient shaped like the output, bprop succeeds with a matrix shaped like the focus operand. |
| OneHotEncoding.ClassColumn | operation/processing/one_hot.h:60 | Casting a label to an unsigned column truncates toward zero. It is defined exactly for labels above -1. |
| OneHotEncoding.OneHotF | operation/processing/one_hot.h:44-64 | OneHot::f computes exactly the specified encoding. A failing row hands back no tensor, so the owning variable is left unchanged. |
| OneHotEncoding.FirstFailureSticks | operation/processing/one_hot.h:54-61 | The first row that throws decides the failure; later rows are not looked at. |
| OneHotEncoding.EncodeRowsCharacterised | operation/processing/one_hot.h:52-61 | After n rows the encoding succeeds exactly when each of those labels is below size, and otherwise fails with invalid_argument. The result is [rows, size]. Row i < n holds on at its label's column and off elsewhere. Later rows are all off. |
| OneHotEncoding.EncodeOfLabels | operation/processing/one_hot.h:44-64 | For one input column of non-negative labels, f succeeds exactly when every label is below size. Each row then holds on at its label's column and off everywhere else. Otherwise f fails with invalid_argument. |
| OneHotEncoding.OneHotBprop | operation/processing/one_hot.h:66-69 | bprop always fails with invalid_argument. |
| ErrorRates.ErrorRateF | operation/performance/error_rate.hpp:26-62 | The nested loops compute exactly the specified error count, or its failure. They write no variable. |
| ErrorRates.ScanFindsFirstMax | operation/performance/error_rate.hpp:46-55 | The row scan returns a maximum of the row together with the first index holding it, because the strict > keeps the earlier index on ties. |
| ErrorRates.PredictedIsFirstMax | operation/performance/error_rate.hpp:46-55 | The predicted class of a row is the first index of the row maximum. |
| ErrorRates.ScanFailureSticks | operation/performance/error_rate.hpp:48-55 | A failed read in the row scan ends the scan with that failure. |
| ErrorRates.CountFailureSticks | operation/performance/error_rate.hpp:44-60 | A failed read in a row ends the count with that failure. |
| ErrorRates.CountErrorsBounded | operation/performance/error_rate.hpp:43-60 | The count after n rows is at most n. |
| ErrorRates.CountErrorsCountsMismatches | operation/performance/error_rate.hpp:43-60 | The count after n rows is the number of rows among them whose predicted class differs from the flat target element. |
| ErrorRates.ErrorCountOfMatrices | operation/performance/error_rate.hpp:26-60 | For a prediction matrix and a target column with the same number of rows, the error count is the number of mispredicted rows, between 0 and the row count. |
| L2Penalty.L2F | src/operation/parameter_norm_penalties/L2_Norm.cpp:6-29 | L2Norm::f computes exactly the specified penalty, or its failure. |
| L2Penalty.SumFailureSticks | src/operation/parameter_norm_penalties/L2_Norm.cpp:17-24 | A failure in the summation loop ends the loop with that failure. |
| L2Penalty.PenaltyNonNegative | src/operation/parameter_norm_penalties/L2_Norm.cpp:14-26 | With lambda >= 0, a successful f stores a shape-{1} tensor holding a non-negative penalty. |
| L2Penalty.PenaltySumNonNegative | src/operation/parameter_norm_penalties/L2_Norm.cpp:16-24 | The running sum of squares is non-negative. It cannot fail on a tensor with a non-zero row count. |
| L2Penalty.PenaltySumIsMasked | src/operation/parameter_norm_penalties/L2_Norm.cpp:16-24 | The sum runs over exactly the elements the bias test does not skip. |
| L2Penalty.SkippedMeaning | src/operation/parameter_norm_penalties/L2_Norm.cpp:19 | For i >= 1 an element is skipped exactly when i = 1 (mod rows). At i = 0 the unsigned i-1 wraps to 2^32-1. |
| L2Penalty.SkippedOnThreeByTwo | src/operation/parameter_norm_penalties/L2_Norm.cpp:19 | On a 3-row tensor the test skips flat indices 0, 1 and 4 and keeps 2, 3 and 5: not the last (bias) row. |
| L2Penalty.L2Bprop | src/operation/parameter_norm_penalties/L2_Norm.cpp:32-59 | L2Norm::bprop computes exactly the specified gradient, or its failure. |
| L2Penalty.GradientFailureSticks | src/operation/parameter_norm_penalties/L2_Norm.cpp:46-56 | A failure in the gradient loop ends the loop with that failure. |
| L2Penalty.GradientUpToCharacterised | src/operation/parameter_norm_penalties/L2_Norm.cpp:43-56 | After n elements the gradient has the input's shape. Element k < n is 0 when skipped and lambda * x[k] otherwise. The rest are 0. |
| L2Penalty.PenaltyGradientOf | src/operation/parameter_norm_penalties/L2_Norm.cpp:32-59 | For one well-formed input and a shape-{1} upstream gradient, bprop succeeds with the input's shape. Skipped entries are 0 and the others are lambda * x. The upstream value is never read. |
| L2Penalty.DotWithMaskedGradient | src/operation/parameter_norm_penalties/L2_Norm.cpp:46-56 | The dot product of the input with its penalty gradient is lambda times the masked sum of squares. |
| L2Penalty.PenaltyIsHalfInputDotGradient | src/operation/parameter_norm_penalties/L2_Norm.cpp:6-59 | f and bprop agree: the penalty is half the dot product of the input with its gradient. They therefore use the same skip test. |
| LossFunctions.ZeroGradient | src/operation/loss_functions/loss_function.cpp:6-9 | The loss gradient is a fresh well-formed tensor of the focus data's shape, every element 0. A null focus data pointer is undefined. |
| LossFunctions.ZeroGradientIgnoresArguments | src/operation/loss_functions/loss_function.cpp:6-9 | The result does not depend on the inputs or on the upstream gradient. |
| LossFunctions.ZeroGradientDependsOnShape | src/operation/loss_functions/loss_function.cpp:8 | Two foci whose data have the same shape get the same gradient. |
| Optimizers.Descended | optimizers/primitive_SGD.hpp:32-35 | After the inner loop has done n elements, those elements are old - lr * grad / batchSize. The rest, the shape and the length are unchanged. |
| Optimizers.ZeroGradientKeepsParameter | optimizers/primitive_SGD.hpp:32-35 | A zero gradient leaves the parameter unchanged. |
| Optimizers.FirstShort | optimizers/primitive_SGD.hpp:30-36 | Locates the first parameter whose gradient is shorter than it, the one at which the flat at(j) throws. |
| Optimizers.Descend | optimizers/primitive_SGD.hpp:32-35 | The inner loop updates every element once, and fails with out_of_range exactly when the gradient is shorter than the parameter. Up to that point the elements are updated. |
| Optimizers.PrimitiveSgd.constructor | optimizers/primitive_SGD.hpp:22-26 | The constructor stores the initial learning rate and the decay rate unchanged. |
| Optimizers.PrimitiveSgd.Update | optimizers/primitive_SGD.hpp:28-38 | Each parameter up to the first too-short gradient is updated with the same rate, and the rest are unchanged. Without a throw the rate becomes lr * decay. After n calls it equals lr0 * decay^n. |

## Left out

- The matrix-product worker threads (operation/linear_algebra/matmul.h:55-63) are modelled as a sequential loop over columns. The columns are disjoint write regions. An exception inside a worker ends the process, so it is modelled as an undefined outcome.
- Floating point: `double` is modelled as `real`, so rounding and the order of summation are not modelled beyond the left-to-right fold.
- Integer widths: `int`, `std::uint32_t` and `size_t` are unbounded here. The one wrap-around that matters, `i - 1` at `i = 0` in the L2 bias test, is modelled explicitly.
- Random initialisation: the random device set-up in tensor.h is left out. The constructor writes 1 to every element, as the code does.
- Console output: the printed error rate of error_rate.hpp is left out. Only the count is modelled.
- The throwing copy constructors and assignments, and the move constructor that copies no fields, are left out (tensor.h and variable.h). Tensors and variables are values or arena records.
- `add_variable` re-points the operation at its variable (graph.h:55). Operations here carry no back-pointer; `f` hands its result back and the graph stores it.
- Pointer aliasing in build_grad is not modelled. The first contribution is kept by pointer and later summed into in place (graph.h:178-191). Tensors are values, so a contribution that is also another variable's table entry is not seen to change.
- The forward pass of the concrete loss functions is not part of this model. A LossFunction step stores nothing.
- ErrorRate's bprop comes from a performance-function base class that is not part of this model. It is given the loss functions' zero gradient.
- The module, cluster and model wiring files, the declaration-only headers, the weight initialisers and the drivers are not part of this model.
- Graphs.Graph.AddVariable: requires the new variable's id to equal its arena position and its edges to point inside the arena. The source relies on this for its id-indexed `visited` and gradient tables, but does not check it.
- Graphs.Graph.Backprop: requires a rank on all variables that decreases along every consumer edge, so every cyclic graph is excluded. The source's build_grad diverges only on a cycle it can reach from a target through variables without a table entry. A cycle that passes through a seeded output is cut by the memo check. A cycle that no target reaches is never visited. Cyclic graphs on which backprop does terminate are not covered by this model.
- Graphs.Graph.BuildGrad: the same whole-arena rank requirement as Backprop, with the same consequence: terminating calls on cyclic graphs, where a table entry cuts every reachable cycle, are not covered.
- Graphs.Graph.AddOutput: requires the output to be a variable already in the arena, because outputs are stored as arena ids. add_output itself accepts any variable, including one never passed to add_variable, and get_output then returns its data. Only backprop's seeding needs the output's id inside the gradient table. Registering an output that is not in the arena is not modelled.
- Graphs.Graph.Forward: its evaluation guarantee assumes an acyclic, wired graph (each input edge matched by a consumer edge). On other graphs only the permutation and the step-by-step effect are stated.
- Optimizers.PrimitiveSgd.Update: requires a positive batch size and a parameter list without repeats. The gradient of parameter i, which the source reads from a process-wide graph, is passed in as an argument.
- TensorBuffers.TensorBuffer.Divide: requires a non-zero divisor, since division of reals by zero is not defined here. The same holds for DivideFlat, Apply and ApplyFlat.
- L2Penalty.L2F: the bias test is modelled as written. It does not select the bias row (see SkippedOnThreeByTwo), and no corrected variant is given.

/** The primitive stochastic-gradient-descent optimizer (optimizers/primitive_SGD.hpp): every
    element of every learnable parameter moves against its gradient, scaled by the learning
    rate and divided by the batch size, and the learning rate then decays. */
module Optimizers {
  import opened Failures
  import opened Tensors
  import opened TensorBuffers

  /** b to the power n. */
  function Power(b: real, n: nat): real
  {
    if n == 0 then 1.0 else Power(b, n - 1) * b
  }

  /** The amount `subtract` takes off one element: lr * gradient / batchSize. */
  function Decrement(rate: real, gradient: real, batchSize: nat): real
    requires batchSize > 0
  {
    rate * gradient / batchSize as real
  }

  /** A parameter after the inner loop has updated its first n elements. */
  function Descended(p: Tensor, g: Tensor, rate: real, batchSize: nat, n: nat): (r: Tensor)
    requires batchSize > 0 && n <= |p.data| && n <= |g.data|
    ensures r.shape == p.shape && |r.data| == |p.data|
    ensures forall j | 0 <= j < |p.data| ::
      r.data[j] == if j < n then p.data[j] - Decrement(rate, g.data[j], batchSize) else p.data[j]
  {
    Tensor(p.shape, seq(|p.data|, j requires 0 <= j < |p.data| =>
      if j < n then p.data[j] - Decrement(rate, g.data[j], batchSize) else p.data[j]))
  }

  /** Whether the flat read at(j) of gradient g fails before the inner loop reaches the end of
      parameter p: the gradient is shorter than the parameter. */
  predicate Short(p: Tensor, g: Tensor)
  {
    |g.data| < |p.data|
  }

  /** A parameter after the whole inner loop: fully descended, or descended up to the first
      element whose gradient read fails. */
  function Stepped(p: Tensor, g: Tensor, rate: real, batchSize: nat): Tensor
    requires batchSize > 0
  {
    if Short(p, g) then Descended(p, g, rate, batchSize, |g.data|)
    else Descended(p, g, rate, batchSize, |p.data|)
  }

  /** A zero gradient is a fixed point of the step, however long it is. */
  lemma ZeroGradientKeepsParameter(p: Tensor, g: Tensor, rate: real, batchSize: nat)
    requires batchSize > 0
    requires forall j | 0 <= j < |g.data| :: g.data[j] == 0.0
    ensures Stepped(p, g, rate, batchSize) == p
  {
    var r := Stepped(p, g, rate, batchSize);
    assert r.data == p.data;
  }

  /** The first parameter whose gradient is too short, or the parameter count if none is. */
  function FirstShort(ps: seq<Tensor>, gs: seq<Tensor>): (k: nat)
    requires |ps| == |gs|
    ensures k <= |ps|
    ensures forall i | 0 <= i < k :: !Short(ps[i], gs[i])
    ensures k < |ps| ==> Short(ps[k], gs[k])
  {
    if |ps| == 0 then 0
    else if Short(ps[0], gs[0]) then 0
    else 1 + FirstShort(ps[1..], gs[1..])
  }

  /** The values held by a sequence of buffers. */
  function Values(ps: seq<TensorBuffer>): (vs: seq<Tensor>)
    reads set p | p in ps
    ensures |vs| == |ps| && forall i | 0 <= i < |ps| :: vs[i] == ps[i].Value()
  {
    seq(|ps|, i requires 0 <= i < |ps| reads set p | p in ps => ps[i].Value())
  }

  /** No buffer is listed twice. */
  predicate Distinct(ps: seq<TensorBuffer>)
  {
    forall i, j | 0 <= i < j < |ps| :: ps[i] != ps[j]
  }

  /** The inner loop of PrimitiveSGD::update on one parameter: subtract(j, lr * at(j) /
      batchSize) for every element j, stopping at the first gradient read that throws. */
  method Descend(p: TensorBuffer, g: Tensor, rate: real, batchSize: nat) returns (o: Outcome)
    requires batchSize > 0
    modifies p
    ensures p.Value() == Stepped(old(p.Value()), g, rate, batchSize)
    ensures o == if Short(old(p.Value()), g) then Fail(AtFlat(g, |g.data|).error) else Pass
  {
    ghost var before := p.Value();
    for j := 0 to |p.mData|
      invariant j <= |g.data| && |p.mData| == |before.data|
      invariant p.Value() == Descended(before, g, rate, batchSize, j)
    {
      var x := AtFlat(g, j);
      if x.Err? {
        return Fail(x.error);
      }
      var _ := p.SubtractFlat(j, Decrement(rate, x.value, batchSize));
    }
    return Pass;
  }

  class PrimitiveSgd {
    /** mInitialLearningRate: despite its name, the current rate, which every update decays. */
    var learningRate: real
    var decayRate: real
    /** The rate given to the constructor and the number of completed updates. */
    ghost var startRate: real
    ghost var updates: nat

    /** The learning rate has decayed once per completed update. */
    ghost predicate Valid()
      reads this
    {
      learningRate == startRate * Power(decayRate, updates)
    }

    constructor (initialLearningRate: real, decay: real)
      ensures learningRate == initialLearningRate && decayRate == decay
      ensures startRate == initialLearningRate && updates == 0 && Valid()
    {
      learningRate := initialLearningRate;
      decayRate := decay;
      startRate := initialLearningRate;
      updates := 0;
    }

    /** PrimitiveSGD::update. The gradient of parameter i (GRAPH->getGradient) is passed in as
        gradients[i]. Parameters before the first one with a too-short gradient are fully
        updated; that one is updated up to the end of its gradient, where at(j) throws; the
        rest and the learning rate are untouched. Without a failure the rate decays. */
    method Update(parameters: seq<TensorBuffer>, gradients: seq<Tensor>, batchSize: nat) returns (o: Outcome)
      requires |gradients| == |parameters| && batchSize > 0 && Distinct(parameters)
      requires Valid()
      modifies this, set p | p in parameters
      ensures Valid() && decayRate == old(decayRate) && startRate == old(startRate)
      ensures var olds, k := old(Values(parameters)), FirstShort(old(Values(parameters)), gradients);
        && (forall i | 0 <= i < |parameters| ::
              parameters[i].Value() == if i <= k && i < |parameters| then Stepped(olds[i], gradients[i], old(learningRate), batchSize) else olds[i])
        && (k == |parameters| ==> o == Pass && learningRate == old(learningRate) * decayRate && updates == old(updates) + 1)
        && (k < |parameters| ==>
              o == Fail(AtFlat(gradients[k], |gradients[k].data|).error)
              && learningRate == old(learningRate) && updates == old(updates))
    {
      ghost var olds := Values(parameters);
      ghost var k := FirstShort(olds, gradients);
      for i := 0 to |parameters|
        invariant learningRate == old(learningRate) && updates == old(updates)
        invariant decayRate == old(decayRate) && startRate == old(startRate)
        invariant i <= k
        invariant forall m | 0 <= m < |parameters| ::
          parameters[m].Value() == if m < i then Stepped(olds[m], gradients[m], learningRate, batchSize) else olds[m]
      {
        var o := Descend(parameters[i], gradients[i], learningRate, batchSize);
        if o.Fail? {
          return o;
        }
      }
      learningRate := learningRate * decayRate;
      updates := updates + 1;
      return Pass;
    }
  }
}

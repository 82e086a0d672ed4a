/**
 * A neuron of the evaluator: a weighted sum of its inputs plus a bias,
 * passed through the sign activation. Arithmetic is over the reals.
 */
module Neurons {
  /** The weights, in input order, and the bias the constructor stores. */
  datatype Neuron = Neuron(weights: seq<real>, bias: real)

  /** Sign activation: -1 for a negative sum, +1 otherwise, zero included. */
  function Activate(sum: real): (out: real)
    ensures out == -1.0 <==> sum < 0.0
    ensures out == 1.0 <==> sum >= 0.0
  {
    if sum < 0.0 then -1.0 else 1.0
  }

  /** `weights[0] * inputs[0] + ... + weights[n-1] * inputs[n-1]`, accumulated left to right. */
  function WeightedSum(weights: seq<real>, inputs: seq<real>, n: nat): real
    requires n <= |inputs| && n <= |weights|
  {
    if n == 0 then 0.0 else WeightedSum(weights, inputs, n - 1) + weights[n - 1] * inputs[n - 1]
  }

  /**
   * What `Calculate` returns: the activation of the whole weighted sum with
   * the bias added last. Only one weight per input is read, so there must
   * be at least as many weights as inputs.
   */
  function Output(neuron: Neuron, inputs: seq<real>): (out: real)
    requires |inputs| <= |neuron.weights|
    ensures out == -1.0 || out == 1.0
    ensures out == 1.0 <==> WeightedSum(neuron.weights, inputs, |inputs|) + neuron.bias >= 0.0
  {
    Activate(WeightedSum(neuron.weights, inputs, |inputs|) + neuron.bias)
  }

  /** The sum reads only the first `n` weights. */
  lemma {:induction false} WeightedSumPrefix(weights: seq<real>, other: seq<real>, inputs: seq<real>, n: nat)
    requires n <= |inputs| && n <= |weights| && n <= |other|
    requires weights[..n] == other[..n]
    ensures WeightedSum(weights, inputs, n) == WeightedSum(other, inputs, n)
    decreases n
  {
    if n > 0 {
      assert weights[n - 1] == weights[..n][n - 1] == other[..n][n - 1] == other[n - 1];
      assert weights[..n - 1] == weights[..n][..n - 1];
      assert other[..n - 1] == other[..n][..n - 1];
      WeightedSumPrefix(weights, other, inputs, n - 1);
    }
  }

  /** Weights beyond the number of inputs are ignored. */
  lemma SurplusWeightsIgnored(neuron: Neuron, inputs: seq<real>)
    requires |inputs| <= |neuron.weights|
    ensures Output(neuron, inputs) == Output(Neuron(neuron.weights[..|inputs|], neuron.bias), inputs)
  {
    var trimmed := neuron.weights[..|inputs|];
    assert trimmed[..|inputs|] == neuron.weights[..|inputs|];
    WeightedSumPrefix(neuron.weights, trimmed, inputs, |inputs|);
  }

  /** `Calculate`: the summing loop over the inputs, then the activation. */
  method Calculate(neuron: Neuron, inputs: seq<real>) returns (out: real)
    requires |inputs| <= |neuron.weights|
    ensures out == Output(neuron, inputs)
  {
    var sum := 0.0;
    var i := 0;
    while i < |inputs|
      invariant 0 <= i <= |inputs|
      invariant sum == WeightedSum(neuron.weights, inputs, i)
    {
      sum := sum + neuron.weights[i] * inputs[i];
      i := i + 1;
    }
    out := Activate(sum + neuron.bias);
  }
}

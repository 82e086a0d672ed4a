/**
 * The feed-forward evaluator: hidden layers of neurons evaluated one after
 * another, each on the outputs of the layer before, then the output
 * neuron. A network is built from a chromosome's genes, reading each gene
 * as the float it stands for.
 */
module Networks {
  import opened Float32
  import opened Genome
  import Neurons

  datatype Network = Network(hidden: seq<seq<Neurons.Neuron>>, output: Neurons.Neuron)

  /** The floats the genes `gs` stand for, in order. */
  function Values(gs: seq<bv32>, fp: FloatModel): (vs: seq<real>)
    ensures |vs| == |gs|
    ensures forall i :: 0 <= i < |gs| ==> vs[i] == fp.value(gs[i])
    decreases |gs|
  {
    if |gs| == 0 then [] else Values(gs[..|gs| - 1], fp) + [fp.value(gs[|gs| - 1])]
  }

  /** A neuron built from its genes: the weight list copied in order, the bias unchanged. */
  function NeuronOf(genes: NeuronGenes, fp: FloatModel): (n: Neurons.Neuron)
    ensures |n.weights| == |genes.weights|
    ensures forall i :: 0 <= i < |genes.weights| ==> n.weights[i] == fp.value(genes.weights[i])
    ensures n.bias == fp.value(genes.bias)
  {
    Neurons.Neuron(Values(genes.weights, fp), fp.value(genes.bias))
  }

  /** The neurons of one stored layer, in neuron order. */
  function LayerOf(layer: seq<NeuronGenes>, fp: FloatModel): (ns: seq<Neurons.Neuron>)
    ensures |ns| == |layer|
    ensures forall n :: 0 <= n < |layer| ==> ns[n] == NeuronOf(layer[n], fp)
    decreases |layer|
  {
    if |layer| == 0 then [] else LayerOf(layer[..|layer| - 1], fp) + [NeuronOf(layer[|layer| - 1], fp)]
  }

  /** The hidden layers built from the stored ones, in layer order. */
  function HiddenOf(layers: seq<seq<NeuronGenes>>, fp: FloatModel): (hs: seq<seq<Neurons.Neuron>>)
    ensures |hs| == |layers|
    ensures forall l :: 0 <= l < |layers| ==> hs[l] == LayerOf(layers[l], fp)
    decreases |layers|
  {
    if |layers| == 0 then [] else HiddenOf(layers[..|layers| - 1], fp) + [LayerOf(layers[|layers| - 1], fp)]
  }

  /** The network the constructor builds from a chromosome. */
  function FromGenes(genes: NetworkGenes, fp: FloatModel): Network
  {
    Network(HiddenOf(genes.hidden, fp), NeuronOf(genes.output, fp))
  }

  /**
   * `Calculate(inputs, layer)` reads one weight per input of every neuron
   * it evaluates: every neuron of layer `layer` has at least `width`
   * weights, and so on for the layers after it, down to the output neuron.
   */
  predicate Accepts(net: Network, width: nat, layer: nat)
    decreases |net.hidden| - layer
  {
    if layer >= |net.hidden| then width <= |net.output.weights|
    else
      (forall n :: 0 <= n < |net.hidden[layer]| ==> width <= |net.hidden[layer][n].weights|) &&
      Accepts(net, |net.hidden[layer]|, layer + 1)
  }

  /** The outputs of every neuron of a layer on the same inputs, one per neuron, in neuron order. */
  function LayerOutputs(layer: seq<Neurons.Neuron>, inputs: seq<real>): (outs: seq<real>)
    requires forall n :: 0 <= n < |layer| ==> |inputs| <= |layer[n].weights|
    ensures |outs| == |layer|
    ensures forall n :: 0 <= n < |layer| ==> outs[n] == Neurons.Output(layer[n], inputs)
    decreases |layer|
  {
    if |layer| == 0 then []
    else LayerOutputs(layer[..|layer| - 1], inputs) + [Neurons.Output(layer[|layer| - 1], inputs)]
  }

  /**
   * The value of `Calculate(inputs, layer)`: past the last hidden layer the
   * output neuron on `inputs`; otherwise the same on the outputs of layer
   * `layer`. The result is always -1 or +1.
   */
  function Forward(net: Network, inputs: seq<real>, layer: nat): (out: real)
    requires Accepts(net, |inputs|, layer)
    ensures out == -1.0 || out == 1.0
    decreases |net.hidden| - layer
  {
    if layer >= |net.hidden| then Neurons.Output(net.output, inputs)
    else Forward(net, LayerOutputs(net.hidden[layer], inputs), layer + 1)
  }

  /** The topology of a run, on a built network: the counterpart of `WellShaped` on genes. */
  predicate Shaped(net: Network, cfg: Config)
  {
    |net.hidden| == cfg.hiddenLayerCount &&
    (forall l :: 0 <= l < |net.hidden| ==> |net.hidden[l]| == cfg.neuronsPerHiddenLayer) &&
    (forall l, n :: 0 <= l < |net.hidden| && 0 <= n < |net.hidden[l]| ==>
       |net.hidden[l][n].weights| == cfg.FanIn(l)) &&
    |net.output.weights| == cfg.neuronsPerHiddenLayer
  }

  /** Building keeps the topology: every layer and every neuron keeps its size. */
  lemma FromGenesShaped(genes: NetworkGenes, fp: FloatModel, cfg: Config)
    requires WellShaped(genes, cfg)
    ensures Shaped(FromGenes(genes, fp), cfg)
  {
    var net := FromGenes(genes, fp);
    forall l, n | 0 <= l < |net.hidden| && 0 <= n < |net.hidden[l]|
      ensures |net.hidden[l][n].weights| == cfg.FanIn(l)
    {
      assert net.hidden[l] == LayerOf(genes.hidden[l], fp);
      assert net.hidden[l][n] == NeuronOf(genes.hidden[l][n], fp);
    }
  }

  /**
   * A network of the run's topology accepts, at layer `layer`, any input
   * vector no longer than that layer's fan-in: layer 0 has `INPUT_COUNT`
   * weights per neuron, each later layer and the output neuron one per
   * neuron of the layer before.
   */
  lemma {:induction false} AcceptsFrom(net: Network, cfg: Config, width: nat, layer: nat)
    requires Shaped(net, cfg) && layer <= cfg.hiddenLayerCount
    requires width <= (if layer == cfg.hiddenLayerCount then cfg.neuronsPerHiddenLayer else cfg.FanIn(layer))
    ensures Accepts(net, width, layer)
    decreases cfg.hiddenLayerCount - layer
  {
    if layer < cfg.hiddenLayerCount {
      AcceptsFrom(net, cfg, cfg.neuronsPerHiddenLayer, layer + 1);
    }
  }

  /** Calling `Calculate(inputs, 0)` on a network built from genes of the run is always defined. */
  lemma BuiltAccepts(genes: NetworkGenes, fp: FloatModel, cfg: Config, inputs: seq<real>)
    requires WellShaped(genes, cfg) && cfg.hiddenLayerCount >= 1 && |inputs| <= cfg.inputCount
    ensures Accepts(FromGenes(genes, fp), |inputs|, 0)
  {
    FromGenesShaped(genes, fp, cfg);
    AcceptsFrom(FromGenes(genes, fp), cfg, |inputs|, 0);
  }

  /** The constructor: for each layer, each neuron, push its weights one by one, then its bias. */
  method Build(genes: NetworkGenes, fp: FloatModel, cfg: Config) returns (net: Network)
    requires WellShaped(genes, cfg)
    ensures net == FromGenes(genes, fp)
  {
    var hidden: seq<seq<Neurons.Neuron>> := [];
    var l := 0;
    while l < cfg.hiddenLayerCount
      invariant 0 <= l <= cfg.hiddenLayerCount
      invariant hidden == HiddenOf(genes.hidden[..l], fp)
    {
      var layer := genes.hidden[l];
      var layerNeurons := BuildLayer(layer, cfg.neuronsPerHiddenLayer, fp);
      var done := genes.hidden[..l + 1];
      assert done[..l] == genes.hidden[..l] && done[l] == layer;
      assert HiddenOf(done, fp) == hidden + [layerNeurons];
      hidden := hidden + [layerNeurons];
      l := l + 1;
    }
    assert genes.hidden[..l] == genes.hidden;
    var output := BuildNeuron(genes.output, fp);
    net := Network(hidden, output);
  }

  /** The neurons of one hidden layer, pushed in neuron order. */
  method BuildLayer(layer: seq<NeuronGenes>, count: nat, fp: FloatModel) returns (neurons: seq<Neurons.Neuron>)
    requires count == |layer|
    ensures neurons == LayerOf(layer, fp)
  {
    neurons := [];
    var n := 0;
    while n < count
      invariant 0 <= n <= count
      invariant neurons == LayerOf(layer[..n], fp)
    {
      var neuron := BuildNeuron(layer[n], fp);
      assert layer[..n + 1][..n] == layer[..n];
      neurons := neurons + [neuron];
      n := n + 1;
    }
    assert layer[..n] == layer;
  }

  /** One neuron: its weights pushed in order, then its bias. */
  method BuildNeuron(genes: NeuronGenes, fp: FloatModel) returns (neuron: Neurons.Neuron)
    ensures neuron == NeuronOf(genes, fp)
  {
    var weights: seq<real> := [];
    var i := 0;
    while i < |genes.weights|
      invariant 0 <= i <= |genes.weights|
      invariant weights == Values(genes.weights[..i], fp)
    {
      assert genes.weights[..i + 1][..i] == genes.weights[..i];
      weights := weights + [fp.value(genes.weights[i])];
      i := i + 1;
    }
    assert genes.weights[..i] == genes.weights;
    neuron := Neurons.Neuron(weights, fp.value(genes.bias));
  }

  /**
   * `Calculate(inputs, layer)`: past the last hidden layer, the output
   * neuron on `inputs`; otherwise the loop collecting one output per
   * neuron of layer `layer`, and the call for the next layer.
   */
  method Calculate(net: Network, inputs: seq<real>, layer: nat) returns (out: real)
    requires Accepts(net, |inputs|, layer)
    ensures out == Forward(net, inputs, layer)
    decreases |net.hidden| - layer
  {
    if layer >= |net.hidden| {
      out := Neurons.Calculate(net.output, inputs);
      return;
    }
    var outputs: seq<real> := [];
    var n := 0;
    while n < |net.hidden[layer]|
      invariant 0 <= n <= |net.hidden[layer]|
      invariant outputs == LayerOutputs(net.hidden[layer][..n], inputs)
    {
      var o := Neurons.Calculate(net.hidden[layer][n], inputs);
      assert net.hidden[layer][..n + 1][..n] == net.hidden[layer][..n];
      outputs := outputs + [o];
      n := n + 1;
    }
    assert net.hidden[layer][..n] == net.hidden[layer];
    out := Calculate(net, outputs, layer + 1);
  }
}

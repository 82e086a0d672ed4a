/**
 * The persisted generation, as typed data instead of JSON.
 *
 * A generation file holds an optional "seed" and, for each bird k, an entry
 * "chromosome<k>" with the network ("layer<l>" -> "neuron<n>" -> "weights",
 * "bias", then "output") and, once the bird has died, its "score".
 */
module Genome {
  import opened Wrappers
  import opened Random

  /** One neuron's parameters: its weights in input order, then its bias. */
  datatype NeuronGenes = NeuronGenes(weights: seq<bv32>, bias: bv32)

  /** Hidden layers in order, each a sequence of neurons, then the output neuron. */
  datatype NetworkGenes = NetworkGenes(hidden: seq<seq<NeuronGenes>>, output: NeuronGenes)

  datatype Chromosome = Chromosome(network: NetworkGenes, score: Option<int>)

  datatype Generation = Generation(chromosomes: seq<Chromosome>, seed: Option<Seed>)

  /** The compile-time constants of the program's definitions header. */
  datatype Config = Config(
    birdCount: nat,
    parentCount: nat,
    hiddenLayerCount: nat,
    neuronsPerHiddenLayer: nat,
    inputCount: nat,
    weightMax: real,
    biasMax: real)
  {
    /**
     * What the program takes for granted without checking: one child per
     * ordered pair of parents fills the population exactly, there is at
     * least one hidden layer, and the initial ranges are not empty.
     */
    predicate Valid()
    {
      parentCount >= 1 && birdCount == parentCount * parentCount &&
      hiddenLayerCount >= 1 && weightMax > 0.0 && biasMax > 0.0
    }

    /** Number of weights of a neuron in hidden layer `layer`. */
    function FanIn(layer: nat): nat
    {
      if layer == 0 then inputCount else neuronsPerHiddenLayer
    }
  }

  /** The topology every network of a run has: the shape of `Init`'s networks. */
  predicate WellShaped(net: NetworkGenes, cfg: Config)
  {
    |net.hidden| == cfg.hiddenLayerCount &&
    (forall l :: 0 <= l < |net.hidden| ==> |net.hidden[l]| == cfg.neuronsPerHiddenLayer) &&
    (forall l, n :: 0 <= l < |net.hidden| && 0 <= n < |net.hidden[l]| ==>
       |net.hidden[l][n].weights| == cfg.FanIn(l)) &&
    |net.output.weights| == cfg.neuronsPerHiddenLayer
  }

  /** A generation of the run: one well-shaped chromosome per bird. */
  predicate ShapedGeneration(g: Generation, cfg: Config)
  {
    |g.chromosomes| == cfg.birdCount &&
    forall k :: 0 <= k < |g.chromosomes| ==> WellShaped(g.chromosomes[k].network, cfg)
  }

  /** The entry of bird `k` exists and contains a "score". */
  predicate Scored(g: Generation, k: nat)
  {
    k < |g.chromosomes| && g.chromosomes[k].score.Some?
  }

  /** Every bird 0 .. birdCount-1 has a score. */
  predicate Complete(g: Generation, birdCount: nat)
  {
    birdCount <= |g.chromosomes| && forall k :: 0 <= k < birdCount ==> Scored(g, k)
  }

  // ---------------------------------------------------------------------
  // The fixed traversal order: hidden layers, neurons, weights then bias,
  // and the output neuron last.

  function NeuronGeneList(n: NeuronGenes): seq<bv32>
  {
    n.weights + [n.bias]
  }

  function LayerGeneList(layer: seq<NeuronGenes>): seq<bv32>
  {
    if |layer| == 0 then [] else LayerGeneList(layer[..|layer| - 1]) + NeuronGeneList(layer[|layer| - 1])
  }

  function HiddenGeneList(layers: seq<seq<NeuronGenes>>): seq<bv32>
  {
    if |layers| == 0 then [] else HiddenGeneList(layers[..|layers| - 1]) + LayerGeneList(layers[|layers| - 1])
  }

  /** Every parameter of a network, in traversal order. */
  function Linearise(net: NetworkGenes): seq<bv32>
  {
    HiddenGeneList(net.hidden) + NeuronGeneList(net.output)
  }

  lemma LayerGeneListSnoc(layer: seq<NeuronGenes>, n: NeuronGenes)
    ensures LayerGeneList(layer + [n]) == LayerGeneList(layer) + NeuronGeneList(n)
  {
    assert (layer + [n])[..|layer|] == layer;
  }

  lemma HiddenGeneListSnoc(layers: seq<seq<NeuronGenes>>, layer: seq<NeuronGenes>)
    ensures HiddenGeneList(layers + [layer]) == HiddenGeneList(layers) + LayerGeneList(layer)
  {
    assert (layers + [layer])[..|layers|] == layers;
  }

  /** Number of parameters of `n` neurons with `fanIn` weights each. */
  function LayerSize(n: nat, fanIn: nat): nat
  {
    if n == 0 then 0 else LayerSize(n - 1, fanIn) + fanIn + 1
  }

  /** Number of parameters of the first `l` hidden layers. */
  function HiddenSize(cfg: Config, l: nat): nat
  {
    if l == 0 then 0 else HiddenSize(cfg, l - 1) + LayerSize(cfg.neuronsPerHiddenLayer, cfg.FanIn(l - 1))
  }

  /** Number of parameters of a network of the run's topology. */
  function ParamCount(cfg: Config): nat
  {
    HiddenSize(cfg, cfg.hiddenLayerCount) + cfg.neuronsPerHiddenLayer + 1
  }

  lemma {:induction false} LayerSizeMonotone(n: nat, m: nat, fanIn: nat)
    requires n <= m
    ensures LayerSize(n, fanIn) <= LayerSize(m, fanIn)
    decreases m
  {
    if n < m { LayerSizeMonotone(n, m - 1, fanIn); }
  }

  lemma {:induction false} HiddenSizeMonotone(cfg: Config, l: nat, m: nat)
    requires l <= m
    ensures HiddenSize(cfg, l) <= HiddenSize(cfg, m)
    decreases m
  {
    if l < m { HiddenSizeMonotone(cfg, l, m - 1); }
  }

  lemma {:induction false} LayerGeneListLength(layer: seq<NeuronGenes>, fanIn: nat)
    requires forall n :: 0 <= n < |layer| ==> |layer[n].weights| == fanIn
    ensures |LayerGeneList(layer)| == LayerSize(|layer|, fanIn)
    decreases |layer|
  {
    if |layer| > 0 { LayerGeneListLength(layer[..|layer| - 1], fanIn); }
  }

  lemma {:induction false} HiddenGeneListLength(layers: seq<seq<NeuronGenes>>, cfg: Config)
    requires |layers| <= cfg.hiddenLayerCount
    requires forall l :: 0 <= l < |layers| ==> |layers[l]| == cfg.neuronsPerHiddenLayer
    requires forall l, n :: 0 <= l < |layers| && 0 <= n < |layers[l]| ==> |layers[l][n].weights| == cfg.FanIn(l)
    ensures |HiddenGeneList(layers)| == HiddenSize(cfg, |layers|)
    decreases |layers|
  {
    if |layers| > 0 {
      var last := |layers| - 1;
      HiddenGeneListLength(layers[..last], cfg);
      LayerGeneListLength(layers[last], cfg.FanIn(last));
    }
  }

  /** A network of the run's topology has exactly `ParamCount` parameters. */
  lemma LineariseLength(net: NetworkGenes, cfg: Config)
    requires WellShaped(net, cfg)
    ensures |Linearise(net)| == ParamCount(cfg)
  {
    HiddenGeneListLength(net.hidden, cfg);
  }
}

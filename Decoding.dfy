/**
 * Building a network's parameters one gene at a time, in the fixed
 * traversal order: hidden layers, their neurons, each neuron's weights
 * then its bias, and the output neuron last.
 *
 * Two parts of the program walk this order. `CreateNewGeneration` decodes
 * a child bit string, 32 characters per gene, and passes every gene
 * through `Mutate`. `Init`, when no generation exists yet, draws every
 * weight and bias uniformly from its range. The traversal is written once,
 * over a `Step` that produces the next gene; `ChildStep` and `FreshStep`
 * are the two steps of the program.
 */
module Decoding {
  import opened Random
  import opened Float32
  import opened Genome
  import opened GeneCodec
  import opened Mutation

  /**
   * Where the next gene is read: the number of 32-character blocks of the
   * child read so far (`currentOffset` is 32 times this), and the position
   * of the next draw of the random stream.
   */
  datatype Cursor = Cursor(offset: nat, draw: nat)

  /** Produces the next gene at a cursor; the flag says whether a bias is read. */
  type Step = (Cursor, bool) -> (bv32, Cursor)

  /** `count` weights in a row. */
  function ReadGenes(step: Step, cur: Cursor, count: nat): (r: (seq<bv32>, Cursor))
    ensures |r.0| == count
    decreases count
  {
    if count == 0 then ([], cur)
    else
      var prefix := ReadGenes(step, cur, count - 1);
      var g := step(prefix.1, false);
      (prefix.0 + [g.0], g.1)
  }

  /** One neuron: `fanIn` weights, then the bias. */
  function ReadNeuron(step: Step, cur: Cursor, fanIn: nat): (r: (NeuronGenes, Cursor))
    ensures |r.0.weights| == fanIn
  {
    var weights := ReadGenes(step, cur, fanIn);
    var bias := step(weights.1, true);
    (NeuronGenes(weights.0, bias.0), bias.1)
  }

  /** The first `n` neurons of a layer whose neurons have `fanIn` weights each. */
  function ReadLayer(step: Step, cur: Cursor, n: nat, fanIn: nat): (r: (seq<NeuronGenes>, Cursor))
    ensures |r.0| == n
    ensures forall i :: 0 <= i < n ==> |r.0[i].weights| == fanIn
    decreases n
  {
    if n == 0 then ([], cur)
    else
      var prefix := ReadLayer(step, cur, n - 1, fanIn);
      var neuron := ReadNeuron(step, prefix.1, fanIn);
      (prefix.0 + [neuron.0], neuron.1)
  }

  /** The first `l` hidden layers of a network of topology `cfg`. */
  function ReadHidden(step: Step, cur: Cursor, l: nat, cfg: Config): (r: (seq<seq<NeuronGenes>>, Cursor))
    ensures |r.0| == l
    ensures forall i :: 0 <= i < l ==> |r.0[i]| == cfg.neuronsPerHiddenLayer
    ensures forall i, n :: 0 <= i < l && 0 <= n < |r.0[i]| ==> |r.0[i][n].weights| == cfg.FanIn(i)
    decreases l
  {
    if l == 0 then ([], cur)
    else
      var prefix := ReadHidden(step, cur, l - 1, cfg);
      var layer := ReadLayer(step, prefix.1, cfg.neuronsPerHiddenLayer, cfg.FanIn(l - 1));
      (prefix.0 + [layer.0], layer.1)
  }

  /** A whole network, every hidden layer then the output neuron: it always has the run's topology. */
  function ReadNetwork(step: Step, cur: Cursor, cfg: Config): (r: (NetworkGenes, Cursor))
    ensures WellShaped(r.0, cfg)
  {
    var hidden := ReadHidden(step, cur, cfg.hiddenLayerCount, cfg);
    var output := ReadNeuron(step, hidden.1, cfg.neuronsPerHiddenLayer);
    (NetworkGenes(hidden.0, output.0), output.1)
  }

  // ---------------------------------------------------------------------
  // The traversal reads genes in the order `Linearise` lists them.

  /** A step that does not care whether it reads a weight or a bias. */
  ghost predicate KindBlind(step: Step)
  {
    forall c: Cursor :: step(c, true) == step(c, false)
  }

  /** Reading `total = a + b` genes reads `a`, then `b` from where those stopped. */
  lemma {:induction false} ReadGenesAppend(step: Step, cur: Cursor, a: nat, b: nat, total: nat)
    requires total == a + b
    ensures ReadGenes(step, cur, total) ==
      var first := ReadGenes(step, cur, a);
      var second := ReadGenes(step, first.1, b);
      (first.0 + second.0, second.1)
    decreases b
  {
    var first := ReadGenes(step, cur, a);
    if b == 0 {
      assert first.0 + [] == first.0;
    } else {
      ReadGenesAppend(step, cur, a, b - 1, total - 1);
      var inner := ReadGenes(step, first.1, b - 1);
      var g := step(inner.1, false);
      assert first.0 + inner.0 + [g.0] == first.0 + (inner.0 + [g.0]);
    }
  }

  /** `ReadGenesAppend` read forwards: two consecutive runs of genes make one run. */
  lemma ReadGenesJoin(step: Step, cur: Cursor, a: nat, first: seq<bv32>, mid: Cursor, b: nat, second: seq<bv32>, end: Cursor, total: nat)
    requires ReadGenes(step, cur, a) == (first, mid)
    requires ReadGenes(step, mid, b) == (second, end)
    requires total == a + b
    ensures ReadGenes(step, cur, total) == (first + second, end)
  {
    ReadGenesAppend(step, cur, a, b, total);
  }

  /** A neuron's genes in traversal order are the next `fanIn + 1` genes. */
  lemma NeuronInOrder(step: Step, cur: Cursor, fanIn: nat)
    requires KindBlind(step)
    ensures var r := ReadNeuron(step, cur, fanIn);
      (NeuronGeneList(r.0), r.1) == ReadGenes(step, cur, fanIn + 1)
  {
    var weights := ReadGenes(step, cur, fanIn);
    assert step(weights.1, true) == step(weights.1, false);
  }

  /** The first `n` neurons of a layer hold the next `LayerSize(n, fanIn)` genes in order. */
  lemma {:induction false} LayerInOrder(step: Step, cur: Cursor, n: nat, fanIn: nat)
    requires KindBlind(step)
    ensures var r := ReadLayer(step, cur, n, fanIn);
      (LayerGeneList(r.0), r.1) == ReadGenes(step, cur, LayerSize(n, fanIn))
    decreases n
  {
    if n > 0 {
      LayerInOrder(step, cur, n - 1, fanIn);
      var prefix := ReadLayer(step, cur, n - 1, fanIn);
      var neuron := ReadNeuron(step, prefix.1, fanIn);
      NeuronInOrder(step, prefix.1, fanIn);
      ReadGenesAppend(step, cur, LayerSize(n - 1, fanIn), fanIn + 1, LayerSize(n, fanIn));
      LayerGeneListSnoc(prefix.0, neuron.0);
    }
  }

  /** The first `l` hidden layers hold the next `HiddenSize(cfg, l)` genes in order. */
  lemma {:induction false} HiddenInOrder(step: Step, cur: Cursor, l: nat, cfg: Config)
    requires KindBlind(step)
    ensures var r := ReadHidden(step, cur, l, cfg);
      (HiddenGeneList(r.0), r.1) == ReadGenes(step, cur, HiddenSize(cfg, l))
    decreases l
  {
    if l > 0 {
      var fanIn := cfg.FanIn(l - 1);
      HiddenInOrder(step, cur, l - 1, cfg);
      var prefix := ReadHidden(step, cur, l - 1, cfg);
      var layer := ReadLayer(step, prefix.1, cfg.neuronsPerHiddenLayer, fanIn);
      LayerInOrder(step, prefix.1, cfg.neuronsPerHiddenLayer, fanIn);
      ReadGenesJoin(step, cur, HiddenSize(cfg, l - 1), HiddenGeneList(prefix.0), prefix.1,
        LayerSize(cfg.neuronsPerHiddenLayer, fanIn), LayerGeneList(layer.0), layer.1, HiddenSize(cfg, l));
      HiddenGeneListSnoc(prefix.0, layer.0);
    }
  }

  /**
   * The network, linearised, is the flat run of the next `ParamCount`
   * genes: decoding visits genes in the order encoding wrote them.
   */
  lemma NetworkInOrder(step: Step, cur: Cursor, cfg: Config)
    requires KindBlind(step)
    ensures var r := ReadNetwork(step, cur, cfg);
      (Linearise(r.0), r.1) == ReadGenes(step, cur, ParamCount(cfg))
  {
    var hidden := ReadHidden(step, cur, cfg.hiddenLayerCount, cfg);
    HiddenInOrder(step, cur, cfg.hiddenLayerCount, cfg);
    NeuronInOrder(step, hidden.1, cfg.neuronsPerHiddenLayer);
    ReadGenesAppend(step, cur, HiddenSize(cfg, cfg.hiddenLayerCount), cfg.neuronsPerHiddenLayer + 1, ParamCount(cfg));
  }

  // ---------------------------------------------------------------------
  // A step that takes one draw per gene reads a network in `ParamCount` draws.

  /** The step reads no block and takes exactly one draw per gene, as bootstrapping does. */
  ghost predicate OneDrawEach(step: Step)
  {
    forall c: Cursor, isBias: bool :: step(c, isBias).1 == Cursor(c.offset, c.draw + 1)
  }

  lemma {:induction false} GenesDraws(step: Step, cur: Cursor, count: nat)
    requires OneDrawEach(step)
    ensures ReadGenes(step, cur, count).1 == Cursor(cur.offset, cur.draw + count)
    decreases count
  {
    if count > 0 {
      GenesDraws(step, cur, count - 1);
    }
  }

  lemma NeuronDraws(step: Step, cur: Cursor, fanIn: nat)
    requires OneDrawEach(step)
    ensures ReadNeuron(step, cur, fanIn).1 == Cursor(cur.offset, cur.draw + fanIn + 1)
  {
    GenesDraws(step, cur, fanIn);
  }

  lemma {:induction false} LayerDraws(step: Step, cur: Cursor, n: nat, fanIn: nat)
    requires OneDrawEach(step)
    ensures ReadLayer(step, cur, n, fanIn).1 == Cursor(cur.offset, cur.draw + LayerSize(n, fanIn))
    decreases n
  {
    if n > 0 {
      LayerDraws(step, cur, n - 1, fanIn);
      NeuronDraws(step, ReadLayer(step, cur, n - 1, fanIn).1, fanIn);
    }
  }

  lemma {:induction false} HiddenDraws(step: Step, cur: Cursor, l: nat, cfg: Config)
    requires OneDrawEach(step)
    ensures ReadHidden(step, cur, l, cfg).1 == Cursor(cur.offset, cur.draw + HiddenSize(cfg, l))
    decreases l
  {
    if l > 0 {
      HiddenDraws(step, cur, l - 1, cfg);
      LayerDraws(step, ReadHidden(step, cur, l - 1, cfg).1, cfg.neuronsPerHiddenLayer, cfg.FanIn(l - 1));
    }
  }

  /** With one draw per gene, a network takes exactly one draw per parameter. */
  lemma NetworkDraws(step: Step, cur: Cursor, cfg: Config)
    requires OneDrawEach(step)
    ensures ReadNetwork(step, cur, cfg).1 == Cursor(cur.offset, cur.draw + ParamCount(cfg))
  {
    HiddenDraws(step, cur, cfg.hiddenLayerCount, cfg);
    NeuronDraws(step, ReadHidden(step, cur, cfg.hiddenLayerCount, cfg).1, cfg.neuronsPerHiddenLayer);
  }

  // ---------------------------------------------------------------------
  // A step whose weights and biases come from bounded ranges builds a
  // network whose every gene comes from those ranges.

  /** `g` is the float nearest to some value in `[-max, max]`. */
  ghost predicate Within(g: bv32, max: real, fp: FloatModel)
  {
    exists x: real :: -max <= x <= max && g == fp.round(x)
  }

  /** Every weight the step yields is within `weightMax`, every bias within `biasMax`. */
  ghost predicate DrawsWithin(step: Step, weightMax: real, biasMax: real, fp: FloatModel)
  {
    forall c: Cursor, isBias: bool :: Within(step(c, isBias).0, if isBias then biasMax else weightMax, fp)
  }

  ghost predicate NeuronWithin(n: NeuronGenes, weightMax: real, biasMax: real, fp: FloatModel)
  {
    (forall i :: 0 <= i < |n.weights| ==> Within(n.weights[i], weightMax, fp)) && Within(n.bias, biasMax, fp)
  }

  /** Every weight of every neuron, hidden and output, is within `weightMax`, every bias within `biasMax`. */
  ghost predicate NetworkWithin(net: NetworkGenes, weightMax: real, biasMax: real, fp: FloatModel)
  {
    (forall l, i :: 0 <= l < |net.hidden| && 0 <= i < |net.hidden[l]| ==>
       NeuronWithin(net.hidden[l][i], weightMax, biasMax, fp))
    && NeuronWithin(net.output, weightMax, biasMax, fp)
  }

  /** A bootstrap draw is scaled into its range before it is rounded. */
  lemma FreshWithin(weightMax: real, biasMax: real, stream: Stream, fp: FloatModel)
    requires weightMax > 0.0 && biasMax > 0.0
    ensures DrawsWithin(FreshStep(weightMax, biasMax, stream, fp), weightMax, biasMax, fp)
  {
    var step := FreshStep(weightMax, biasMax, stream, fp);
    forall c: Cursor, isBias: bool
      ensures Within(step(c, isBias).0, if isBias then biasMax else weightMax, fp)
    {
      var max := if isBias then biasMax else weightMax;
      var x := Uniform(stream(c.draw), max);
      assert step(c, isBias).0 == fp.round(x);
    }
  }

  lemma {:induction false} GenesWithin(step: Step, cur: Cursor, count: nat, weightMax: real, biasMax: real, fp: FloatModel)
    requires DrawsWithin(step, weightMax, biasMax, fp)
    ensures forall i :: 0 <= i < count ==> Within(ReadGenes(step, cur, count).0[i], weightMax, fp)
    decreases count
  {
    if count > 0 {
      GenesWithin(step, cur, count - 1, weightMax, biasMax, fp);
      var prefix := ReadGenes(step, cur, count - 1);
      assert Within(step(prefix.1, false).0, weightMax, fp);
    }
  }

  lemma NeuronReadWithin(step: Step, cur: Cursor, fanIn: nat, weightMax: real, biasMax: real, fp: FloatModel)
    requires DrawsWithin(step, weightMax, biasMax, fp)
    ensures NeuronWithin(ReadNeuron(step, cur, fanIn).0, weightMax, biasMax, fp)
  {
    GenesWithin(step, cur, fanIn, weightMax, biasMax, fp);
    assert Within(step(ReadGenes(step, cur, fanIn).1, true).0, biasMax, fp);
  }

  lemma {:induction false} LayerWithin(step: Step, cur: Cursor, n: nat, fanIn: nat, weightMax: real, biasMax: real, fp: FloatModel)
    requires DrawsWithin(step, weightMax, biasMax, fp)
    ensures forall i :: 0 <= i < n ==> NeuronWithin(ReadLayer(step, cur, n, fanIn).0[i], weightMax, biasMax, fp)
    decreases n
  {
    if n > 0 {
      LayerWithin(step, cur, n - 1, fanIn, weightMax, biasMax, fp);
      NeuronReadWithin(step, ReadLayer(step, cur, n - 1, fanIn).1, fanIn, weightMax, biasMax, fp);
    }
  }

  lemma {:induction false} HiddenWithin(step: Step, cur: Cursor, l: nat, cfg: Config, weightMax: real, biasMax: real, fp: FloatModel)
    requires DrawsWithin(step, weightMax, biasMax, fp)
    ensures forall i, n :: 0 <= i < l && 0 <= n < cfg.neuronsPerHiddenLayer ==>
              NeuronWithin(ReadHidden(step, cur, l, cfg).0[i][n], weightMax, biasMax, fp)
    decreases l
  {
    if l > 0 {
      HiddenWithin(step, cur, l - 1, cfg, weightMax, biasMax, fp);
      LayerWithin(step, ReadHidden(step, cur, l - 1, cfg).1, cfg.neuronsPerHiddenLayer, cfg.FanIn(l - 1), weightMax, biasMax, fp);
    }
  }

  /** A step drawing within the ranges reads a network all of whose genes are within them. */
  lemma NetworkReadWithin(step: Step, cur: Cursor, cfg: Config, weightMax: real, biasMax: real, fp: FloatModel)
    requires DrawsWithin(step, weightMax, biasMax, fp)
    ensures NetworkWithin(ReadNetwork(step, cur, cfg).0, weightMax, biasMax, fp)
  {
    HiddenWithin(step, cur, cfg.hiddenLayerCount, cfg, weightMax, biasMax, fp);
    NeuronReadWithin(step, ReadHidden(step, cur, cfg.hiddenLayerCount, cfg).1, cfg.neuronsPerHiddenLayer, weightMax, biasMax, fp);
  }

  // ---------------------------------------------------------------------
  // The two steps of the program.

  /**
   * Decoding a child: the pattern of the next block (the 32-step bit loop
   * at `currentOffset`), passed through `Mutate`, which draws once or
   * twice. Past the last block the step yields zero; `DecodeChild` shows
   * that decoding never gets there.
   */
  function ChildStep(bits: string, generation: nat, stream: Stream, fp: FloatModel): (step: Step)
    requires IsBinary(bits)
    ensures KindBlind(step)
  {
    (c: Cursor, isBias: bool) =>
      if 32 * c.offset + 32 <= |bits| then
        var m := Mutate(DecodeGene(bits[32 * c.offset..32 * c.offset + 32]), stream, c.draw, generation, fp);
        (m.0, Cursor(c.offset + 1, m.1))
      else
        (0, Cursor(c.offset + 1, c.draw))
  }

  /**
   * Bootstrapping: one draw, scaled into the weight range, or the bias
   * range when a bias is read, and stored as the nearest float.
   */
  function FreshStep(weightMax: real, biasMax: real, stream: Stream, fp: FloatModel): (step: Step)
    requires weightMax > 0.0 && biasMax > 0.0
    ensures OneDrawEach(step)
  {
    (c: Cursor, isBias: bool) =>
      var max := if isBias then biasMax else weightMax;
      (fp.round(Uniform(stream(c.draw), max)), Cursor(c.offset, c.draw + 1))
  }

  /** `g` passed through `Mutate` at the cursor's draw, and the cursor moved past its block. */
  function ChildGene(g: bv32, generation: nat, stream: Stream, fp: FloatModel, c: Cursor): (bv32, Cursor)
  {
    var m := Mutate(g, stream, c.draw, generation, fp);
    (m.0, Cursor(c.offset + 1, m.1))
  }

  /** At a block that decodes to `g`, the child step yields `g` passed through `Mutate`. */
  lemma ChildStepAt(bits: string, g: bv32, generation: nat, stream: Stream, fp: FloatModel, c: Cursor)
    requires IsBinary(bits) && 32 * c.offset + 32 <= |bits|
    requires IsBinary(bits[32 * c.offset..32 * c.offset + 32]) && DecodeGene(bits[32 * c.offset..32 * c.offset + 32]) == g
    ensures forall isBias: bool ::
      ChildStep(bits, generation, stream, fp)(c, isBias) == ChildGene(g, generation, stream, fp, c)
  {
  }

  /** Read flat, a string encoding a gene list is that list passed through `Mutate` one gene after another. */
  lemma {:induction false} ReadGenesOfChild(bits: string, gs: seq<bv32>, generation: nat, stream: Stream, fp: FloatModel, pos: nat, count: nat)
    requires Encodes(bits, gs) && count <= |gs|
    ensures var m := MutateAll(gs[..count], stream, pos, generation, fp);
      ReadGenes(ChildStep(bits, generation, stream, fp), Cursor(0, pos), count) == (m.0, Cursor(count, m.1))
    decreases count
  {
    if count > 0 {
      ReadGenesOfChild(bits, gs, generation, stream, fp, pos, count - 1);
      var step := ChildStep(bits, generation, stream, fp);
      var prefix := ReadGenes(step, Cursor(0, pos), count - 1);
      var m := MutateAll(gs[..count - 1], stream, pos, generation, fp);
      ChildStepAt(bits, gs[count - 1], generation, stream, fp, prefix.1);
      var last := Mutate(gs[count - 1], stream, m.1, generation, fp);
      assert step(prefix.1, false) == (last.0, Cursor(count, last.1));
      assert gs[..count][..count - 1] == gs[..count - 1];
    }
  }

  // ---------------------------------------------------------------------
  // The nested loops of the program.

  /** Where the genes come from: a child bit string of generation `generation`, or the initial ranges. */
  datatype GeneSource =
    | Child(bits: string, generation: nat)
    | Fresh(weightMax: real, biasMax: real)
  {
    /** A child is a string of 0s and 1s; the ranges of a fresh source are not empty. */
    predicate Valid()
    {
      match this
      case Child(bits, _) => IsBinary(bits)
      case Fresh(weightMax, biasMax) => weightMax > 0.0 && biasMax > 0.0
    }

    /** A child holds `count` more whole blocks from `cur` on; a fresh source has no bound. */
    predicate Holds(cur: Cursor, count: nat)
    {
      Child? ==> 32 * (cur.offset + count) <= |bits|
    }

    function StepOf(stream: Stream, fp: FloatModel): Step
      requires Valid()
    {
      match this
      case Child(bits, generation) => ChildStep(bits, generation, stream, fp)
      case Fresh(weightMax, biasMax) => FreshStep(weightMax, biasMax, stream, fp)
    }
  }

  /** One gene: for a child, the 32-step bit loop at `currentOffset`, then `Mutate`; when fresh, one draw. */
  method TakeGene(src: GeneSource, stream: Stream, fp: FloatModel, cur: Cursor, isBias: bool) returns (g: bv32, next: Cursor)
    requires src.Valid() && src.Holds(cur, 1)
    ensures (g, next) == src.StepOf(stream, fp)(cur, isBias)
    ensures src.Child? ==> next.offset == cur.offset + 1
  {
    match src
    case Child(bits, generation) =>
      var n := ReadGene(bits, 32 * cur.offset);
      var m := Mutate(n, stream, cur.draw, generation, fp);
      g, next := m.0, Cursor(cur.offset + 1, m.1);
    case Fresh(weightMax, biasMax) =>
      var max := if isBias then biasMax else weightMax;
      g := fp.round(Uniform(stream(cur.draw), max));
      next := Cursor(cur.offset, cur.draw + 1);
  }

  /** The weight loop of one neuron, then its bias. */
  method TakeNeuron(src: GeneSource, stream: Stream, fp: FloatModel, cur: Cursor, fanIn: nat) returns (neuron: NeuronGenes, next: Cursor)
    requires src.Valid() && src.Holds(cur, fanIn + 1)
    ensures (neuron, next) == ReadNeuron(src.StepOf(stream, fp), cur, fanIn)
    ensures src.Child? ==> next.offset == cur.offset + fanIn + 1
  {
    var weights: seq<bv32> := [];
    next := cur;
    var i := 0;
    while i < fanIn
      invariant 0 <= i <= fanIn
      invariant (weights, next) == ReadGenes(src.StepOf(stream, fp), cur, i)
      invariant src.Child? ==> next.offset == cur.offset + i
    {
      var g;
      g, next := TakeGene(src, stream, fp, next, false);
      weights := weights + [g];
      i := i + 1;
    }
    var bias;
    bias, next := TakeGene(src, stream, fp, next, true);
    neuron := NeuronGenes(weights, bias);
  }

  /** The neuron loop of one layer. */
  method TakeLayer(src: GeneSource, stream: Stream, fp: FloatModel, cur: Cursor, count: nat, fanIn: nat) returns (layer: seq<NeuronGenes>, next: Cursor)
    requires src.Valid() && src.Holds(cur, LayerSize(count, fanIn))
    ensures (layer, next) == ReadLayer(src.StepOf(stream, fp), cur, count, fanIn)
    ensures src.Child? ==> next.offset == cur.offset + LayerSize(count, fanIn)
  {
    layer := [];
    next := cur;
    var n := 0;
    while n < count
      invariant 0 <= n <= count
      invariant (layer, next) == ReadLayer(src.StepOf(stream, fp), cur, n, fanIn)
      invariant src.Child? ==> next.offset == cur.offset + LayerSize(n, fanIn)
    {
      LayerSizeMonotone(n + 1, count, fanIn);
      var neuron;
      neuron, next := TakeNeuron(src, stream, fp, next, fanIn);
      layer := layer + [neuron];
      n := n + 1;
    }
  }

  /** The layer loop, then the output neuron: one chromosome's network. */
  method TakeNetwork(src: GeneSource, stream: Stream, fp: FloatModel, cur: Cursor, cfg: Config) returns (net: NetworkGenes, next: Cursor)
    requires src.Valid() && src.Holds(cur, ParamCount(cfg))
    ensures (net, next) == ReadNetwork(src.StepOf(stream, fp), cur, cfg)
    ensures src.Child? ==> next.offset == cur.offset + ParamCount(cfg)
  {
    var hidden: seq<seq<NeuronGenes>> := [];
    next := cur;
    var l := 0;
    while l < cfg.hiddenLayerCount
      invariant 0 <= l <= cfg.hiddenLayerCount
      invariant (hidden, next) == ReadHidden(src.StepOf(stream, fp), cur, l, cfg)
      invariant src.Child? ==> next.offset == cur.offset + HiddenSize(cfg, l)
    {
      HiddenSizeMonotone(cfg, l + 1, cfg.hiddenLayerCount);
      var layer;
      layer, next := TakeLayer(src, stream, fp, next, cfg.neuronsPerHiddenLayer, cfg.FanIn(l));
      hidden := hidden + [layer];
      l := l + 1;
    }
    var output;
    output, next := TakeNeuron(src, stream, fp, next, cfg.neuronsPerHiddenLayer);
    net := NetworkGenes(hidden, output);
  }

  // ---------------------------------------------------------------------
  // Decoding one child of `CreateNewGeneration`.

  /** The network decoded from a child bit string, its draws starting at `pos`, and the position after them. */
  function DecodeBits(bits: string, generation: nat, stream: Stream, fp: FloatModel, pos: nat, cfg: Config): (r: (NetworkGenes, nat))
    requires IsBinary(bits)
    ensures WellShaped(r.0, cfg)
  {
    var read := ReadNetwork(GeneSource.Child(bits, generation).StepOf(stream, fp), Cursor(0, pos), cfg);
    (read.0, read.1.draw)
  }

  /**
   * The decoding loops for one child, starting at `currentOffset = 0`,
   * followed by the length check: `consistent` is false exactly when
   * `currentOffset` ends short of the child's length, where the program
   * only logs an error and keeps the network.
   */
  method DecodeNetwork(bits: string, generation: nat, stream: Stream, fp: FloatModel, pos: nat, cfg: Config)
    returns (net: NetworkGenes, next: nat, consistent: bool)
    requires IsBinary(bits) && 32 * ParamCount(cfg) <= |bits|
    ensures (net, next) == DecodeBits(bits, generation, stream, fp, pos, cfg)
    ensures consistent <==> |bits| == 32 * ParamCount(cfg)
  {
    var cur;
    net, cur := TakeNetwork(GeneSource.Child(bits, generation), stream, fp, Cursor(0, pos), cfg);
    next := cur.draw;
    consistent := |bits| == 32 * cur.offset;
  }

  /**
   * Decoding a child that encodes the gene list `gs` yields a network of
   * the run's topology whose parameters, in traversal order, are `gs`
   * passed through `Mutate`, using exactly the draws `Mutate` makes; and
   * the child has exactly the length the decoding loops consume, so the
   * length check never reports a failure.
   */
  lemma DecodeChild(gs: seq<bv32>, generation: nat, stream: Stream, fp: FloatModel, pos: nat, cfg: Config)
    requires |gs| == ParamCount(cfg)
    ensures IsBinary(Bits(gs)) && |Bits(gs)| == 32 * ParamCount(cfg)
    ensures var r := DecodeBits(Bits(gs), generation, stream, fp, pos, cfg);
      var m := MutateAll(gs, stream, pos, generation, fp);
      Linearise(r.0) == m.0 && r.1 == m.1
  {
    BitsEncode(gs);
    assert gs[..|gs|] == gs;
    NetworkInOrder(ChildStep(Bits(gs), generation, stream, fp), Cursor(0, pos), cfg);
    ReadGenesOfChild(Bits(gs), gs, generation, stream, fp, pos, |gs|);
  }
}

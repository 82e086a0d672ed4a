/**
 * A gene written as text: the 32-bit pattern of a weight or bias as 32
 * characters '0'/'1', most significant bit first (what
 * `std::bitset<32>(pattern).to_string()` yields), and read back by OR-ing
 * character i into bit 31 - i.
 */
module GeneCodec {
  import opened Genome

  predicate IsBinary(s: string)
  {
    forall i :: 0 <= i < |s| ==> s[i] == '0' || s[i] == '1'
  }

  /** Character i of the encoding of `g`: bit 31 - i. */
  function BitChar(g: bv32, i: bv6): char
    requires i < 32
  {
    if (g >> (31 - i)) & 1 == 1 then '1' else '0'
  }

  /** The first k characters of the encoding. */
  function EncodeBits(g: bv32, k: bv6): (s: string)
    requires k <= 32
    ensures |s| == k as int && IsBinary(s)
    ensures forall i: bv6 :: i < k ==> s[i] == BitChar(g, i)
  {
    if k == 0 then [] else EncodeBits(g, k - 1) + [BitChar(g, k - 1)]
  }

  /** `std::bitset<32>(g).to_string()`. */
  function EncodeGene(g: bv32): (s: string)
    ensures |s| == 32 && IsBinary(s)
    ensures forall i: bv6 :: i < 32 ==> (s[i] == '1' <==> (g >> (31 - i)) & 1 == 1)
  {
    EncodeBits(g, 32)
  }

  /** `c - 48` for a binary digit. */
  function Bit(c: char): bv32
    requires c == '0' || c == '1'
  {
    if c == '1' then 1 else 0
  }

  /** The pattern after the decoding loop has OR-ed in the first k characters. */
  function DecodePrefix(w: string, k: bv6): bv32
    requires k <= 32 && |w| == 32 && IsBinary(w)
  {
    if k == 0 then 0 else DecodePrefix(w, k - 1) | (Bit(w[k - 1]) << (32 - k))
  }

  function DecodeGene(w: string): bv32
    requires |w| == 32 && IsBinary(w)
  {
    DecodePrefix(w, 32)
  }

  /** The top k bits of g, the rest cleared. */
  function HighBits(g: bv32, k: bv6): bv32
    requires k <= 32
  {
    (g >> (32 - k)) << (32 - k)
  }

  lemma HighBitsStep(g: bv32, k: bv6)
    requires 1 <= k <= 32
    ensures HighBits(g, k) == HighBits(g, k - 1) | (Bit(BitChar(g, k - 1)) << (32 - k))
  {
  }

  lemma EncodedPrefixStep(g: bv32, k: bv6)
    requires 1 <= k <= 32
    ensures DecodePrefix(EncodeGene(g), k) == DecodePrefix(EncodeGene(g), k - 1) | (Bit(BitChar(g, k - 1)) << (32 - k))
  {
    assert EncodeGene(g)[k - 1] == BitChar(g, k - 1);
  }

  lemma {:induction false} DecodeEncodePrefix(g: bv32, k: bv6)
    requires k <= 32
    ensures DecodePrefix(EncodeGene(g), k) == HighBits(g, k)
  {
    if k > 0 {
      DecodeEncodePrefix(g, k - 1);
      EncodedPrefixStep(g, k);
      HighBitsStep(g, k);
    }
  }

  /** Decoding an encoded gene gives back the identical bit pattern. */
  lemma DecodeEncode(g: bv32)
    ensures DecodeGene(EncodeGene(g)) == g
  {
    DecodeEncodePrefix(g, 32);
  }

  /** One pass of the decoding loop ORs character k into bit 31 - k. */
  lemma DecodePrefixStep(w: string, k: bv6)
    requires k < 32 && |w| == 32 && IsBinary(w)
    ensures DecodePrefix(w, k + 1) == DecodePrefix(w, k) | (Bit(w[k]) << (31 - k))
  {
  }

  /** One pass of the decoding loop, reading character `offset + k` of `child`. */
  lemma ReadStep(child: string, offset: nat, k: bv6)
    requires offset + 32 <= |child| && IsBinary(child) && k < 32
    ensures var w := child[offset..offset + 32];
      DecodePrefix(w, k + 1) == DecodePrefix(w, k) | (Bit(child[offset + k as int]) << (31 - k))
  {
    var w := child[offset..offset + 32];
    assert w[k] == child[offset + k as int];
    DecodePrefixStep(w, k);
  }

  /** The inner decoding loop: 32 characters starting at `offset` into one pattern. */
  method ReadGene(child: string, offset: nat) returns (n: bv32)
    requires offset + 32 <= |child| && IsBinary(child)
    ensures n == DecodeGene(child[offset..offset + 32])
  {
    ghost var w := child[offset..offset + 32];
    n := 0;
    var i: bv6 := 0;
    while i < 32
      invariant i <= 32
      invariant n == DecodePrefix(w, i)
    {
      var c := child[offset + i as int];
      ReadStep(child, offset, i);
      n := n | (Bit(c) << (31 - i));
      i := i + 1;
    }
  }

  // ---------------------------------------------------------------------
  // Whole chromosomes: the encodings of a gene list, concatenated.

  function Bits(gs: seq<bv32>): (s: string)
    ensures |s| == 32 * |gs|
  {
    if |gs| == 0 then [] else Bits(gs[..|gs| - 1]) + EncodeGene(gs[|gs| - 1])
  }

  lemma {:induction false} BitsAppend(a: seq<bv32>, b: seq<bv32>)
    ensures Bits(a + b) == Bits(a) + Bits(b)
    decreases |b|
  {
    if |b| > 0 {
      var last := |b| - 1;
      assert (a + b)[..|a + b| - 1] == a + b[..last];
      BitsAppend(a, b[..last]);
    } else {
      assert a + b == a;
    }
  }

  /** Block i of an encoded list is the encoding of gene i. */
  lemma {:induction false} BitsBlock(gs: seq<bv32>, i: nat)
    requires i < |gs|
    ensures Bits(gs)[32 * i..32 * i + 32] == EncodeGene(gs[i])
    decreases |gs|
  {
    var last := |gs| - 1;
    if i < last {
      BitsBlock(gs[..last], i);
    }
  }

  lemma {:induction false} BitsBinary(gs: seq<bv32>)
    ensures IsBinary(Bits(gs))
    decreases |gs|
  {
    if |gs| > 0 { BitsBinary(gs[..|gs| - 1]); }
  }

  /** Reading block i of an encoded list gives gene i. */
  lemma DecodeBlock(gs: seq<bv32>, i: nat)
    requires i < |gs|
    ensures IsBinary(Bits(gs)[32 * i..32 * i + 32])
    ensures DecodeGene(Bits(gs)[32 * i..32 * i + 32]) == gs[i]
  {
    BitsBlock(gs, i);
    DecodeEncode(gs[i]);
  }

  /** `bits` is binary and its 32-character blocks decode, in order, to `gs`. */
  predicate Encodes(bits: string, gs: seq<bv32>)
  {
    IsBinary(bits) && |bits| == 32 * |gs| &&
    forall i :: 0 <= i < |gs| ==>
      IsBinary(bits[32 * i..32 * i + 32]) && DecodeGene(bits[32 * i..32 * i + 32]) == gs[i]
  }

  /** The encoding of a gene list decodes, block by block, to that list. */
  lemma BitsEncode(gs: seq<bv32>)
    ensures Encodes(Bits(gs), gs)
  {
    BitsBinary(gs);
    forall i | 0 <= i < |gs|
      ensures IsBinary(Bits(gs)[32 * i..32 * i + 32]) && DecodeGene(Bits(gs)[32 * i..32 * i + 32]) == gs[i]
    {
      DecodeBlock(gs, i);
    }
  }

  /** The encoding of one neuron: its weights in order, then its bias. */
  method EncodeNeuron(cell: NeuronGenes) returns (s: string)
    ensures s == Bits(NeuronGeneList(cell))
  {
    s := "";
    var i := 0;
    while i < |cell.weights|
      invariant 0 <= i <= |cell.weights|
      invariant s == Bits(cell.weights[..i])
    {
      assert cell.weights[..i + 1][..i] == cell.weights[..i];
      s := s + EncodeGene(cell.weights[i]);
      i := i + 1;
    }
    assert (cell.weights + [cell.bias])[..|cell.weights|] == cell.weights[..i];
    s := s + EncodeGene(cell.bias);
  }

  /** The encoding of the first `count` neurons of a hidden layer, in order. */
  method EncodeLayer(layer: seq<NeuronGenes>, count: nat) returns (s: string)
    requires count == |layer|
    ensures s == Bits(LayerGeneList(layer))
  {
    s := "";
    var neuron := 0;
    while neuron < count
      invariant 0 <= neuron <= count
      invariant s == Bits(LayerGeneList(layer[..neuron]))
    {
      var t := EncodeNeuron(layer[neuron]);
      BitsAppend(LayerGeneList(layer[..neuron]), NeuronGeneList(layer[neuron]));
      s := s + t;
      assert layer[..neuron + 1][..neuron] == layer[..neuron];
      neuron := neuron + 1;
    }
    assert layer[..neuron] == layer;
  }

  /**
   * The encoding loop of `CreateNewGeneration` for one parent: every
   * neuron of every hidden layer, then the output neuron.
   */
  method EncodeNetwork(net: NetworkGenes, cfg: Config) returns (s: string)
    requires WellShaped(net, cfg)
    ensures s == Bits(Linearise(net))
    ensures |s| == 32 * ParamCount(cfg) && IsBinary(s)
  {
    s := "";
    var layer := 0;
    while layer < cfg.hiddenLayerCount
      invariant 0 <= layer <= cfg.hiddenLayerCount
      invariant s == Bits(HiddenGeneList(net.hidden[..layer]))
    {
      var t := EncodeLayer(net.hidden[layer], cfg.neuronsPerHiddenLayer);
      BitsAppend(HiddenGeneList(net.hidden[..layer]), LayerGeneList(net.hidden[layer]));
      s := s + t;
      assert net.hidden[..layer + 1][..layer] == net.hidden[..layer];
      layer := layer + 1;
    }
    assert net.hidden[..layer] == net.hidden;
    var t := EncodeNeuron(net.output);
    BitsAppend(HiddenGeneList(net.hidden), NeuronGeneList(net.output));
    s := s + t;
    LineariseLength(net, cfg);
    BitsBinary(Linearise(net));
  }
}

/**
 * Alternating-block crossover of two parent chromosomes: the child takes
 * gene block i from the first parent when i is even and from the second
 * when i is odd.
 */
module Recombination {
  import opened GeneCodec

  /** The 32-character block `i` of `s`. */
  function Block(s: string, i: nat): (w: string)
    requires 32 * i + 32 <= |s|
    ensures |w| == 32
  {
    s[32 * i..32 * i + 32]
  }

  /** The first `k` blocks of the child of `a` and `b`. */
  function Crossover(a: string, b: string, k: nat): (child: string)
    requires |a| == |b| && 32 * k <= |a|
    ensures |child| == 32 * k
    decreases k
  {
    if k == 0 then []
    else
      Crossover(a, b, k - 1) + (if (k - 1) % 2 == 0 then Block(a, k - 1) else Block(b, k - 1))
  }

  /** The child of `a` and `b`: as many blocks as the first parent holds. */
  function Child(a: string, b: string): (child: string)
    requires |a| == |b|
    ensures |child| == 32 * (|a| / 32)
  {
    Crossover(a, b, |a| / 32)
  }

  /** A child of two strings of 0s and 1s is a string of 0s and 1s. */
  lemma {:induction false} CrossoverBinary(a: string, b: string, k: nat)
    requires |a| == |b| && 32 * k <= |a| && IsBinary(a) && IsBinary(b)
    ensures IsBinary(Crossover(a, b, k))
    decreases k
  {
    if k > 0 {
      CrossoverBinary(a, b, k - 1);
      var block := if (k - 1) % 2 == 0 then Block(a, k - 1) else Block(b, k - 1);
      assert IsBinary(block);
    }
  }

  /** Block `i` of the child comes from the first parent when `i` is even, from the second when it is odd. */
  lemma {:induction false} CrossoverBlocks(a: string, b: string, k: nat)
    requires |a| == |b| && 32 * k <= |a|
    ensures forall i :: 0 <= i < k ==>
      Block(Crossover(a, b, k), i) == if i % 2 == 0 then Block(a, i) else Block(b, i)
    decreases k
  {
    if k > 0 {
      CrossoverBlocks(a, b, k - 1);
      var prefix := Crossover(a, b, k - 1);
      var child := Crossover(a, b, k);
      forall i | 0 <= i < k
        ensures Block(child, i) == if i % 2 == 0 then Block(a, i) else Block(b, i)
      {
        if i < k - 1 {
          assert Block(child, i) == Block(prefix, i);
        }
      }
    }
  }

  /** A parent crossed with itself gives the parent's first `k` blocks. */
  lemma {:induction false} CrossoverSelfPrefix(a: string, k: nat)
    requires 32 * k <= |a|
    ensures Crossover(a, a, k) == a[..32 * k]
    decreases k
  {
    if k > 0 {
      CrossoverSelfPrefix(a, k - 1);
      assert a[..32 * k] == a[..32 * (k - 1)] + Block(a, k - 1);
    }
  }

  /** Crossing a whole chromosome with itself copies it exactly. */
  lemma CrossoverSelf(a: string)
    requires |a| % 32 == 0
    ensures Child(a, a) == a
  {
    CrossoverSelfPrefix(a, |a| / 32);
    assert a[..32 * (|a| / 32)] == a;
  }

  /** The gene list of the child: gene `i` from `ga` when `i` is even, from `gb` when it is odd. */
  function Alternate(ga: seq<bv32>, gb: seq<bv32>): (gs: seq<bv32>)
    requires |ga| == |gb|
    ensures |gs| == |ga|
    ensures forall i :: 0 <= i < |gs| ==> gs[i] == if i % 2 == 0 then ga[i] else gb[i]
    decreases |ga|
  {
    if |ga| == 0 then []
    else
      var last := |ga| - 1;
      Alternate(ga[..last], gb[..last]) + [if last % 2 == 0 then ga[last] else gb[last]]
  }

  /** The block crossover copies at position `i` is the encoding of the gene `Alternate` takes there. */
  lemma PickedBlock(ga: seq<bv32>, gb: seq<bv32>, i: nat)
    requires |ga| == |gb| && i < |ga|
    ensures (if i % 2 == 0 then Block(Bits(ga), i) else Block(Bits(gb), i)) ==
      EncodeGene(if i % 2 == 0 then ga[i] else gb[i])
  {
    if i % 2 == 0 { BitsBlock(ga, i); } else { BitsBlock(gb, i); }
  }

  /** Appending one gene appends its encoding. */
  lemma BitsSnoc(gs: seq<bv32>, g: bv32)
    ensures Bits(gs + [g]) == Bits(gs) + EncodeGene(g)
  {
    assert (gs + [g])[..|gs|] == gs;
  }

  /** Crossover works on whole genes: the child of two encodings encodes the alternated gene list. */
  lemma {:induction false} CrossoverOfBits(ga: seq<bv32>, gb: seq<bv32>, k: nat)
    requires |ga| == |gb| && k <= |ga|
    ensures Crossover(Bits(ga), Bits(gb), k) == Bits(Alternate(ga[..k], gb[..k]))
    decreases k
  {
    if k > 0 {
      CrossoverOfBits(ga, gb, k - 1);
      assert ga[..k][..k - 1] == ga[..k - 1];
      assert gb[..k][..k - 1] == gb[..k - 1];
      var g := if (k - 1) % 2 == 0 then ga[k - 1] else gb[k - 1];
      PickedBlock(ga, gb, k - 1);
      var before := Alternate(ga[..k - 1], gb[..k - 1]);
      assert Alternate(ga[..k], gb[..k]) == before + [g];
      BitsSnoc(before, g);
    }
  }

  /** The whole child of two encoded gene lists. */
  lemma ChildOfBits(ga: seq<bv32>, gb: seq<bv32>)
    requires |ga| == |gb|
    ensures Child(Bits(ga), Bits(gb)) == Bits(Alternate(ga, gb))
  {
    CrossoverOfBits(ga, gb, |ga|);
    assert |Bits(ga)| / 32 == |ga|;
    assert ga[..|ga|] == ga && gb[..|gb|] == gb;
  }

  /** The crossover loop, appending one 32-character block per pass. */
  method Cross(a: string, b: string) returns (child: string)
    requires |a| == |b|
    ensures child == Child(a, b)
  {
    child := [];
    var i := 0;
    while i < |a| / 32
      invariant 0 <= i <= |a| / 32
      invariant child == Crossover(a, b, i)
    {
      if i % 2 == 0 {
        child := child + a[i * 32..i * 32 + 32];
      } else {
        child := child + b[i * 32..i * 32 + 32];
      }
      i := i + 1;
    }
  }
}

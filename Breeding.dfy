/**
 * The breeding loops of `CreateNewGeneration`: for every ordered pair
 * (`first`, `second`) of encoded winners, in lexicographic order, the
 * child string is a copy of the winner (when `first == second`) or their
 * alternating-block crossover, and it is decoded, with mutation, into the
 * next chromosome.
 */
module Breeding {
  import opened Random
  import opened Float32
  import opened Genome
  import opened GeneCodec
  import opened Recombination
  import opened Mutation
  import opened Decoding

  /** `winningChromosomes`: each winner's gene list written out as bits. */
  function Encoded(pgs: seq<seq<bv32>>): (parents: seq<string>)
    ensures |parents| == |pgs|
    ensures forall i :: 0 <= i < |pgs| ==> parents[i] == Bits(pgs[i])
    decreases |pgs|
  {
    if |pgs| == 0 then [] else Encoded(pgs[..|pgs| - 1]) + [Bits(pgs[|pgs| - 1])]
  }

  /** Strings crossover can pair: at least one, all of 0s and 1s, all of one length. */
  predicate Breedable(parents: seq<string>)
  {
    |parents| >= 1 &&
    forall i :: 0 <= i < |parents| ==> IsBinary(parents[i]) && |parents[i]| == |parents[0]|
  }

  /** The string child of the pair (`first`, `second`): a copy when they are equal, the crossover otherwise. */
  function ChildBits(parents: seq<string>, first: nat, second: nat): (child: string)
    requires Breedable(parents) && first < |parents| && second < |parents|
    ensures IsBinary(child)
  {
    if first == second then parents[first]
    else
      CrossoverBinary(parents[first], parents[second], |parents[first]| / 32);
      Recombination.Child(parents[first], parents[second])
  }

  /**
   * Breeds the child of the ordered pair (`first`, `second`), its draws
   * starting at the given position; returns the network and the position
   * of the next draw.
   */
  type Breeder = (nat, nat, nat) --> (NetworkGenes, nat)

  /** `breed` takes every pair of `p` parents. */
  ghost predicate Breeds(breed: Breeder, p: nat)
  {
    forall first: nat, second: nat, pos: nat :: first < p && second < p ==> breed.requires(first, second, pos)
  }

  /** `breed` decodes, for generation `generation`, the string child of each pair of `parents`. */
  ghost predicate BreedsAs(breed: Breeder, parents: seq<string>, generation: nat, stream: Stream, fp: FloatModel, cfg: Config)
  {
    Breedable(parents) &&
    forall first: nat, second: nat, pos: nat
      {:trigger DecodeBits(ChildBits(parents, first, second), generation, stream, fp, pos, cfg)} ::
      first < |parents| && second < |parents| ==>
        breed.requires(first, second, pos) &&
        breed(first, second, pos) == DecodeBits(ChildBits(parents, first, second), generation, stream, fp, pos, cfg)
  }

  /** The breeding of `CreateNewGeneration`: copy or cross, then decode with mutation for generation `generation`. */
  function PairBreeder(parents: seq<string>, generation: nat, stream: Stream, fp: FloatModel, cfg: Config): (breed: Breeder)
    requires Breedable(parents)
    ensures Breeds(breed, |parents|) && BreedsAs(breed, parents, generation, stream, fp, cfg)
    ensures BreedsShaped(breed, |parents|, cfg)
  {
    (first: nat, second: nat, pos: nat) requires first < |parents| && second < |parents| =>
      DecodeBits(ChildBits(parents, first, second), generation, stream, fp, pos, cfg)
  }

  /**
   * The children of row `first` of the inner loop: pairs (`first`, 0) ..
   * (`first`, `count` - 1) of `p` parents, bred one after another from
   * draw `pos` on. Returns the networks and the position of the next draw.
   */
  function BreedRow(p: nat, first: nat, count: nat, breed: Breeder, pos: nat): (r: (seq<NetworkGenes>, nat))
    requires first < p && count <= p && Breeds(breed, p)
    ensures |r.0| == count
    decreases count
  {
    if count == 0 then ([], pos)
    else
      var prev := BreedRow(p, first, count - 1, breed, pos);
      var child := breed(first, count - 1, prev.1);
      (prev.0 + [child.0], child.1)
  }

  /** The children of the first `rows` rows of the outer loop, one row after another. */
  function BreedRows(p: nat, rows: nat, breed: Breeder, pos: nat): (r: (seq<NetworkGenes>, nat))
    requires rows <= p && Breeds(breed, p)
    decreases rows
  {
    if rows == 0 then ([], pos)
    else
      var prev := BreedRows(p, rows - 1, breed, pos);
      var row := BreedRow(p, rows - 1, p, breed, prev.1);
      (prev.0 + row.0, row.1)
  }

  /** The first `rows` rows hold `rows * p` children. */
  lemma {:induction false} BreedRowsLength(p: nat, rows: nat, breed: Breeder, pos: nat)
    requires rows <= p && Breeds(breed, p)
    ensures |BreedRows(p, rows, breed, pos).0| == rows * p
    decreases rows
  {
    if rows > 0 {
      BreedRowsLength(p, rows - 1, breed, pos);
      assert (rows - 1) * p + p == rows * p;
    }
  }

  /** Every child `breed` yields for a pair of `p` parents has the run's topology. */
  ghost predicate BreedsShaped(breed: Breeder, p: nat, cfg: Config)
  {
    forall first: nat, second: nat, pos: nat :: first < p && second < p ==>
      breed.requires(first, second, pos) && WellShaped(breed(first, second, pos).0, cfg)
  }

  /** A row of such children has the run's topology throughout. */
  lemma {:induction false} BreedRowShaped(p: nat, first: nat, count: nat, breed: Breeder, pos: nat, cfg: Config)
    requires first < p && count <= p && Breeds(breed, p) && BreedsShaped(breed, p, cfg)
    ensures forall i :: 0 <= i < count ==> WellShaped(BreedRow(p, first, count, breed, pos).0[i], cfg)
    decreases count
  {
    if count > 0 {
      BreedRowShaped(p, first, count - 1, breed, pos, cfg);
    }
  }

  /** So do the rows of the outer loop. */
  lemma {:induction false} BreedRowsShaped(p: nat, rows: nat, breed: Breeder, pos: nat, cfg: Config)
    requires rows <= p && Breeds(breed, p) && BreedsShaped(breed, p, cfg)
    ensures forall i :: 0 <= i < |BreedRows(p, rows, breed, pos).0| ==> WellShaped(BreedRows(p, rows, breed, pos).0[i], cfg)
    decreases rows
  {
    if rows > 0 {
      BreedRowsShaped(p, rows - 1, breed, pos, cfg);
      BreedRowShaped(p, rows - 1, p, breed, BreedRows(p, rows - 1, breed, pos).1, cfg);
    }
  }

  /** The draw at which the breeding of child (`first`, `second`) starts. */
  function DrawStart(p: nat, first: nat, second: nat, breed: Breeder, pos: nat): nat
    requires first < p && second < p && Breeds(breed, p)
  {
    var before := BreedRows(p, first, breed, pos).1;
    BreedRow(p, first, second, breed, before).1
  }

  /** `a * p` exceeds `b * p` by at least `p` when `a > b`. */
  lemma MulGap(a: int, b: int, p: nat)
    requires a > b
    ensures a * p >= b * p + p
  {
    assert a * p == (a - b - 1) * p + b * p + p;
    assert (a - b - 1) * p >= 0;
  }

  /** Where the child of (`first`, `second`) lands: the children are numbered in lexicographic order. */
  function PairIndex(p: nat, first: nat, second: nat): (k: nat)
    requires first < p && second < p
    ensures k < p * p
  {
    MulGap(p, first, p);
    first * p + second
  }

  /** Child `second` of a row is bred from where the children before it stopped. */
  lemma {:induction false} BreedRowAt(p: nat, first: nat, count: nat, second: nat, breed: Breeder, pos: nat)
    requires first < p && second < count <= p && Breeds(breed, p)
    ensures BreedRow(p, first, count, breed, pos).0[second] ==
      breed(first, second, BreedRow(p, first, second, breed, pos).1).0
    decreases count
  {
    if second < count - 1 {
      BreedRowAt(p, first, count - 1, second, breed, pos);
    }
  }

  /**
   * Children are written in lexicographic (`first`, `second`) order: the
   * child at index `first * p + second` is the child of `first` and
   * `second`, bred from the draw where the children before it stopped.
   */
  lemma {:induction false} BreedRowsAt(p: nat, rows: nat, first: nat, second: nat, breed: Breeder, pos: nat)
    requires first < rows <= p && second < p && Breeds(breed, p)
    ensures PairIndex(p, first, second) < |BreedRows(p, rows, breed, pos).0|
    ensures BreedRows(p, rows, breed, pos).0[PairIndex(p, first, second)] ==
      breed(first, second, DrawStart(p, first, second, breed, pos)).0
    decreases rows
  {
    var prev := BreedRows(p, rows - 1, breed, pos);
    var row := BreedRow(p, rows - 1, p, breed, prev.1);
    assert BreedRows(p, rows, breed, pos).0 == prev.0 + row.0;
    BreedRowsLength(p, rows - 1, breed, pos);
    if first < rows - 1 {
      BreedRowsAt(p, rows - 1, first, second, breed, pos);
    } else {
      BreedRowAt(p, first, p, second, breed, prev.1);
    }
  }

  // ---------------------------------------------------------------------
  // What a child inherits, gene by gene.

  /** The gene list child (`first`, `second`) inherits: the parent's own, or the alternation of the two. */
  function Mix(pgs: seq<seq<bv32>>, first: nat, second: nat): (gs: seq<bv32>)
    requires first < |pgs| && second < |pgs| && |pgs[first]| == |pgs[second]|
    ensures |gs| == |pgs[first]|
    ensures forall i :: 0 <= i < |gs| ==> gs[i] == if i % 2 == 0 then pgs[first][i] else pgs[second][i]
  {
    if first == second then pgs[first] else Alternate(pgs[first], pgs[second])
  }

  /** Gene lists of one length `width`, one per parent. */
  predicate SameWidth(pgs: seq<seq<bv32>>, width: nat)
  {
    |pgs| >= 1 && forall i :: 0 <= i < |pgs| ==> |pgs[i]| == width
  }

  /** Encoded gene lists of one length can be bred. */
  lemma EncodedBreedable(pgs: seq<seq<bv32>>, width: nat)
    requires SameWidth(pgs, width)
    ensures Breedable(Encoded(pgs))
  {
    forall i | 0 <= i < |pgs|
      ensures IsBinary(Encoded(pgs)[i])
    {
      BitsBinary(pgs[i]);
    }
  }

  /** The string child of two encoded parents is the encoding of the gene list it inherits. */
  lemma ChildBitsOfGenes(pgs: seq<seq<bv32>>, width: nat, first: nat, second: nat)
    requires SameWidth(pgs, width) && first < |pgs| && second < |pgs|
    ensures Breedable(Encoded(pgs))
    ensures ChildBits(Encoded(pgs), first, second) == Bits(Mix(pgs, first, second))
  {
    EncodedBreedable(pgs, width);
    if first != second {
      ChildOfBits(pgs[first], pgs[second]);
    }
  }

  /**
   * Decoding the child of the pair (`first`, `second`) of encoded parents
   * of the run's topology gives a network whose parameters, in traversal
   * order, are the inherited gene list passed through `Mutate`, and uses
   * exactly the draws `Mutate` makes.
   */
  lemma ChildGenes(pgs: seq<seq<bv32>>, first: nat, second: nat, generation: nat, stream: Stream, fp: FloatModel, pos: nat, cfg: Config)
    requires SameWidth(pgs, ParamCount(cfg)) && first < |pgs| && second < |pgs|
    ensures Breedable(Encoded(pgs))
    ensures var r := DecodeBits(ChildBits(Encoded(pgs), first, second), generation, stream, fp, pos, cfg);
      var m := MutateAll(Mix(pgs, first, second), stream, pos, generation, fp);
      Linearise(r.0) == m.0 && r.1 == m.1
  {
    ChildBitsOfGenes(pgs, ParamCount(cfg), first, second);
    DecodeChild(Mix(pgs, first, second), generation, stream, fp, pos, cfg);
  }

  /**
   * The child at index `first * p + second` of the breeding loops has, in
   * traversal order, the gene list it inherits from the pair passed
   * through `Mutate`, from the draw where the children before it stopped.
   */
  lemma BredChild(pgs: seq<seq<bv32>>, breed: Breeder, first: nat, second: nat, generation: nat, stream: Stream, fp: FloatModel, pos: nat, cfg: Config)
    requires SameWidth(pgs, ParamCount(cfg)) && first < |pgs| && second < |pgs|
    requires Breeds(breed, |pgs|) && BreedsAs(breed, Encoded(pgs), generation, stream, fp, cfg)
    ensures var k := PairIndex(|pgs|, first, second);
      && k < |BreedRows(|pgs|, |pgs|, breed, pos).0|
      && Linearise(BreedRows(|pgs|, |pgs|, breed, pos).0[k]) ==
         MutateAll(Mix(pgs, first, second), stream, DrawStart(|pgs|, first, second, breed, pos), generation, fp).0
  {
    var before := DrawStart(|pgs|, first, second, breed, pos);
    BreedRowsAt(|pgs|, |pgs|, first, second, breed, pos);
    ChildGenes(pgs, first, second, generation, stream, fp, before, cfg);
  }

  /**
   * A parent paired with itself is cloned: while no mutation gate opens
   * among the draws of its decoding, the child has exactly the parent's
   * parameters.
   */
  lemma CloneUnderQuietDraws(pgs: seq<seq<bv32>>, first: nat, generation: nat, stream: Stream, fp: FloatModel, pos: nat, cfg: Config)
    requires SameWidth(pgs, ParamCount(cfg)) && first < |pgs|
    requires Quiet(stream, pos, pos + ParamCount(cfg))
    ensures Breedable(Encoded(pgs))
    ensures Linearise(DecodeBits(ChildBits(Encoded(pgs), first, first), generation, stream, fp, pos, cfg).0) == pgs[first]
  {
    ChildGenes(pgs, first, first, generation, stream, fp, pos, cfg);
    MutateAllQuiet(pgs[first], stream, pos, generation, fp);
  }

  // ---------------------------------------------------------------------
  // The loops.

  /**
   * The body of the breeding loops for one ordered pair (`first`,
   * `second`): copy or cross the two strings, then decode the child with
   * mutation, its draws starting at `pos`.
   */
  method BreedPair(parents: seq<string>, first: nat, second: nat, ghost breed: Breeder, generation: nat, stream: Stream, fp: FloatModel, pos: nat, cfg: Config)
    returns (net: NetworkGenes, next: nat)
    requires Breedable(parents) && |parents[0]| == 32 * ParamCount(cfg)
    requires first < |parents| && second < |parents|
    requires Breeds(breed, |parents|) && BreedsAs(breed, parents, generation, stream, fp, cfg)
    ensures (net, next) == breed(first, second, pos)
  {
    var child;
    if first == second {
      child := parents[first];
    } else {
      child := Cross(parents[first], parents[second]);
    }
    assert child == ChildBits(parents, first, second);
    assert |child| == 32 * ParamCount(cfg) by {
      if first != second {
        assert |parents[first]| / 32 == ParamCount(cfg);
      }
    }
    var consistent;
    net, next, consistent := DecodeNetwork(child, generation, stream, fp, pos, cfg);
    // `currentOffset` ends at the end of the child: the length check never logs.
    assert consistent;
  }

  /** The inner loop: `second` from 0 to `p` - 1 for one `first`. */
  method BreedRowLoop(parents: seq<string>, first: nat, ghost breed: Breeder, generation: nat, stream: Stream, fp: FloatModel, pos: nat, cfg: Config)
    returns (children: seq<NetworkGenes>, next: nat)
    requires Breedable(parents) && |parents[0]| == 32 * ParamCount(cfg) && first < |parents|
    requires Breeds(breed, |parents|) && BreedsAs(breed, parents, generation, stream, fp, cfg)
    ensures (children, next) == BreedRow(|parents|, first, |parents|, breed, pos)
  {
    children, next := [], pos;
    var second := 0;
    while second < |parents|
      invariant 0 <= second <= |parents|
      invariant (children, next) == BreedRow(|parents|, first, second, breed, pos)
    {
      var net;
      net, next := BreedPair(parents, first, second, breed, generation, stream, fp, next, cfg);
      children := children + [net];
      second := second + 1;
    }
  }

  /** The outer loop: `first` from 0 to `p` - 1, so `p * p` children in lexicographic order. */
  method BreedAll(parents: seq<string>, ghost breed: Breeder, generation: nat, stream: Stream, fp: FloatModel, pos: nat, cfg: Config)
    returns (children: seq<NetworkGenes>, next: nat)
    requires Breedable(parents) && |parents[0]| == 32 * ParamCount(cfg)
    requires Breeds(breed, |parents|) && BreedsAs(breed, parents, generation, stream, fp, cfg)
    ensures (children, next) == BreedRows(|parents|, |parents|, breed, pos)
    ensures |children| == |parents| * |parents|
  {
    children, next := [], pos;
    var first := 0;
    while first < |parents|
      invariant 0 <= first <= |parents|
      invariant (children, next) == BreedRows(|parents|, first, breed, pos)
    {
      var row;
      row, next := BreedRowLoop(parents, first, breed, generation, stream, fp, next, cfg);
      children := children + row;
      first := first + 1;
    }
    BreedRowsLength(|parents|, |parents|, breed, pos);
  }
}

/**
 * `CreateNewGeneration` after the seed is settled: selection, encoding of
 * the winners, crossover of every ordered pair of winners, and decoding of
 * each child with mutation. All draws come from one stream, the one
 * `srand(seed)` selects, in the order the program makes them.
 */
module Evolution {
  import opened Wrappers
  import opened Random
  import opened Float32
  import opened Genome
  import opened GeneCodec
  import opened Selection
  import opened Recombination
  import opened Mutation
  import opened Decoding
  import opened Breeding

  /** The scores of birds 0 .. n-1 of a generation in which each of them has one. */
  function Scores(g: Generation, n: nat): (s: seq<int>)
    requires Complete(g, n)
    ensures |s| == n
    ensures forall k :: 0 <= k < n ==> g.chromosomes[k].score == Some(s[k])
    decreases n
  {
    if n == 0 then []
    else
      assert Scored(g, n - 1);
      Scores(g, n - 1) + [g.chromosomes[n - 1].score.value]
  }

  /** Every group has a member and every member has a score. */
  predicate Playable(groups: seq<seq<nat>>, scores: seq<int>)
  {
    forall g :: 0 <= g < |groups| ==> |groups[g]| > 0 && InTable(groups[g], scores)
  }

  /** `winners`: the winner of each group, in group order. */
  function Winners(groups: seq<seq<nat>>, scores: seq<int>): (ws: seq<nat>)
    requires Playable(groups, scores)
    ensures |ws| == |groups|
    ensures forall g :: 0 <= g < |groups| ==> ws[g] == WinnerOf(groups[g], scores) && ws[g] < |scores|
    decreases |groups|
  {
    if |groups| == 0 then []
    else
      var last := |groups| - 1;
      WinnerInTable(groups[last], scores);
      Winners(groups[..last], scores) + [WinnerOf(groups[last], scores)]
  }

  lemma WinnerInTable(group: seq<nat>, scores: seq<int>)
    requires |group| > 0 && InTable(group, scores)
    ensures WinnerOf(group, scores) < |scores|
  {
    var w := WinnerOf(group, scores);
    var i :| 0 <= i < |group| && group[i] == w;
  }

  /** The parameters of each winner, in traversal order. */
  function ParentGenes(g: Generation, winners: seq<nat>): (pgs: seq<seq<bv32>>)
    requires forall i :: 0 <= i < |winners| ==> winners[i] < |g.chromosomes|
    ensures |pgs| == |winners|
    ensures forall i :: 0 <= i < |winners| ==> pgs[i] == Linearise(g.chromosomes[winners[i]].network)
    decreases |winners|
  {
    if |winners| == 0 then []
    else
      var last := |winners| - 1;
      ParentGenes(g, winners[..last]) + [Linearise(g.chromosomes[winners[last]].network)]
  }

  // ---------------------------------------------------------------------
  // The whole of `CreateNewGeneration` after `srand(seed)`, as one value.

  /** The parents' gene lists are all as long as a network of the run's topology. */
  lemma ParentWidth(g: Generation, winners: seq<nat>, cfg: Config)
    requires ShapedGeneration(g, cfg) && |winners| >= 1
    requires forall i :: 0 <= i < |winners| ==> winners[i] < |g.chromosomes|
    ensures SameWidth(ParentGenes(g, winners), ParamCount(cfg))
  {
    forall i | 0 <= i < |winners|
      ensures |ParentGenes(g, winners)[i]| == ParamCount(cfg)
    {
      LineariseLength(g.chromosomes[winners[i]].network, cfg);
    }
  }

  /**
   * The tournament groups the first `BIRD_COUNT` draws after `srand(seed)`
   * deal: every group has a member, and every member is a bird of the
   * finished generation, so it has a score.
   */
  function Groups(g: Generation, stream: Stream, cfg: Config): (groups: seq<seq<nat>>)
    requires cfg.Valid() && Complete(g, cfg.birdCount)
    ensures |groups| == cfg.parentCount
    ensures Playable(groups, Scores(g, cfg.birdCount))
  {
    var groups := Deal(Range(cfg.birdCount), EmptyGroups(cfg.parentCount), 0, stream, 0).0;
    DealtPlayable(g, stream, cfg, groups);
    groups
  }

  lemma DealtPlayable(g: Generation, stream: Stream, cfg: Config, groups: seq<seq<nat>>)
    requires cfg.Valid() && Complete(g, cfg.birdCount)
    requires groups == Deal(Range(cfg.birdCount), EmptyGroups(cfg.parentCount), 0, stream, 0).0
    ensures |groups| == cfg.parentCount
    ensures Playable(groups, Scores(g, cfg.birdCount))
  {
    DealPartitions(cfg.birdCount, cfg.parentCount, stream, 0);
    MulGap(cfg.parentCount, 0, cfg.parentCount);
    var scores := Scores(g, cfg.birdCount);
    forall i | 0 <= i < |groups|
      ensures |groups[i]| > 0 && InTable(groups[i], scores)
    {
      forall j | 0 <= j < |groups[i]|
        ensures groups[i][j] < |scores|
      {
        assert groups[i][j] in groups[i];
      }
    }
  }

  /** The parents `CreateNewGeneration` selects: the winner of each group, in group order. */
  function Selected(g: Generation, stream: Stream, cfg: Config): (winners: seq<nat>)
    requires cfg.Valid() && Complete(g, cfg.birdCount)
    ensures |winners| == cfg.parentCount
    ensures forall i :: 0 <= i < |winners| ==> winners[i] < cfg.birdCount
  {
    Winners(Groups(g, stream, cfg), Scores(g, cfg.birdCount))
  }

  /** The gene lists of the selected parents, in traversal order. */
  function Champions(g: Generation, stream: Stream, cfg: Config): (pgs: seq<seq<bv32>>)
    requires cfg.Valid() && ShapedGeneration(g, cfg) && Complete(g, cfg.birdCount)
    ensures SameWidth(pgs, ParamCount(cfg)) && |pgs| == cfg.parentCount
    ensures forall i :: 0 <= i < |pgs| ==> pgs[i] == Linearise(g.chromosomes[Selected(g, stream, cfg)[i]].network)
  {
    var winners := Selected(g, stream, cfg);
    ParentWidth(g, winners, cfg);
    ParentGenes(g, winners)
  }

  /**
   * Every selected parent scores at least as much as every member of its
   * group, and it is the first member of its group with that score.
   */
  lemma SelectedAreGroupMaxima(g: Generation, stream: Stream, cfg: Config, group: nat)
    requires cfg.Valid() && Complete(g, cfg.birdCount) && group < cfg.parentCount
    ensures var members := Groups(g, stream, cfg)[group];
      var winner := Selected(g, stream, cfg)[group];
      && (forall j :: 0 <= j < |members| ==>
            g.chromosomes[members[j]].score.value <= g.chromosomes[winner].score.value)
      && (exists k :: 0 <= k < |members| && members[k] == winner &&
            forall j :: 0 <= j < k ==> g.chromosomes[members[j]].score.value < g.chromosomes[winner].score.value)
  {
    var scores := Scores(g, cfg.birdCount);
    var members := Groups(g, stream, cfg)[group];
    WinnerIsMaximum(members, scores);
    WinnerComesFirst(members, scores);
  }

  /** The networks as chromosomes of a new generation: in order, none scored. */
  function Unscored(nets: seq<NetworkGenes>): (cs: seq<Chromosome>)
    ensures |cs| == |nets|
    ensures forall k :: 0 <= k < |nets| ==> cs[k] == Chromosome(nets[k], None)
    decreases |nets|
  {
    if |nets| == 0 then [] else Unscored(nets[..|nets| - 1]) + [Chromosome(nets[|nets| - 1], None)]
  }

  /** The breeding step of generation number `generation`, over the encoded winners. */
  function Breeder(g: Generation, generation: nat, stream: Stream, fp: FloatModel, cfg: Config): (breed: Breeding.Breeder)
    requires cfg.Valid() && ShapedGeneration(g, cfg) && Complete(g, cfg.birdCount)
    ensures Breeds(breed, cfg.parentCount) && BreedsShaped(breed, cfg.parentCount, cfg)
  {
    var pgs := Champions(g, stream, cfg);
    EncodedBreedable(pgs, ParamCount(cfg));
    PairBreeder(Encoded(pgs), generation, stream, fp, cfg)
  }

  /** The breeding step decodes the crossovers of the encoded winners, which `BreedAll` can pair. */
  lemma BreederOfChampions(g: Generation, generation: nat, stream: Stream, fp: FloatModel, cfg: Config)
    requires cfg.Valid() && ShapedGeneration(g, cfg) && Complete(g, cfg.birdCount)
    ensures var parents := Encoded(Champions(g, stream, cfg));
      && Breedable(parents) && |parents| == cfg.parentCount && |parents[0]| == 32 * ParamCount(cfg)
      && BreedsAs(Breeder(g, generation, stream, fp, cfg), parents, generation, stream, fp, cfg)
  {
    var pgs := Champions(g, stream, cfg);
    EncodedBreedable(pgs, ParamCount(cfg));
  }

  /**
   * The `PARENT_COUNT * PARENT_COUNT` children of a finished generation,
   * decoded for generation number `generation` from the draws after the
   * dealing, and the position of the next draw.
   */
  function Children(g: Generation, generation: nat, stream: Stream, fp: FloatModel, cfg: Config): (r: (seq<NetworkGenes>, nat))
    requires cfg.Valid() && ShapedGeneration(g, cfg) && Complete(g, cfg.birdCount)
    ensures |r.0| == cfg.birdCount
    ensures forall k :: 0 <= k < |r.0| ==> WellShaped(r.0[k], cfg)
  {
    var breed := Breeder(g, generation, stream, fp, cfg);
    BreedRowsLength(cfg.parentCount, cfg.parentCount, breed, cfg.birdCount);
    BreedRowsShaped(cfg.parentCount, cfg.parentCount, breed, cfg.birdCount, cfg);
    BreedRows(cfg.parentCount, cfg.parentCount, breed, cfg.birdCount)
  }

  /**
   * The generation `CreateNewGeneration` writes: the children as
   * chromosomes 0 .. P*P-1, none scored, and (because the JSON object is
   * cleared first) no seed. It has the population size and topology of
   * the one it replaces.
   */
  function Breed(g: Generation, generation: nat, stream: Stream, fp: FloatModel, cfg: Config): (next: Generation)
    requires cfg.Valid() && ShapedGeneration(g, cfg) && Complete(g, cfg.birdCount)
    ensures ShapedGeneration(next, cfg) && next.seed == None
    ensures forall k :: 0 <= k < |next.chromosomes| ==> next.chromosomes[k].score == None
  {
    Generation(Unscored(Children(g, generation, stream, fp, cfg).0), None)
  }

  /** The draw at which the decoding of child (`first`, `second`) starts. */
  function DrawsBefore(g: Generation, generation: nat, stream: Stream, fp: FloatModel, cfg: Config, first: nat, second: nat): nat
    requires cfg.Valid() && ShapedGeneration(g, cfg) && Complete(g, cfg.birdCount)
    requires first < cfg.parentCount && second < cfg.parentCount
  {
    DrawStart(cfg.parentCount, first, second, Breeder(g, generation, stream, fp, cfg), cfg.birdCount)
  }

  /**
   * Child `first * P + second` of the new generation is bred from the
   * winners of groups `first` and `second`: its parameters, in traversal
   * order, are the first winner's (when the two are the same group) or the
   * alternation of the two winners' gene lists, each gene passed through
   * `Mutate` for the new generation number.
   */
  lemma BreedChild(g: Generation, generation: nat, stream: Stream, fp: FloatModel, cfg: Config, first: nat, second: nat)
    requires cfg.Valid() && ShapedGeneration(g, cfg) && Complete(g, cfg.birdCount)
    requires first < cfg.parentCount && second < cfg.parentCount
    ensures var k := PairIndex(cfg.parentCount, first, second);
      && k < |Breed(g, generation, stream, fp, cfg).chromosomes|
      && Linearise(Breed(g, generation, stream, fp, cfg).chromosomes[k].network) ==
         MutateAll(Mix(Champions(g, stream, cfg), first, second), stream,
                   DrawsBefore(g, generation, stream, fp, cfg, first, second), generation, fp).0
  {
    var pgs := Champions(g, stream, cfg);
    EncodedBreedable(pgs, ParamCount(cfg));
    var breed := Breeder(g, generation, stream, fp, cfg);
    BredChild(pgs, breed, first, second, generation, stream, fp, cfg.birdCount, cfg);
  }

  /**
   * A winner paired with itself is cloned: when no mutation gate opens
   * among the draws of its decoding, child `first * P + first` has exactly
   * the parameters of the winner of group `first`.
   */
  lemma BreedClone(g: Generation, generation: nat, stream: Stream, fp: FloatModel, cfg: Config, first: nat)
    requires cfg.Valid() && ShapedGeneration(g, cfg) && Complete(g, cfg.birdCount) && first < cfg.parentCount
    requires Quiet(stream, DrawsBefore(g, generation, stream, fp, cfg, first, first),
                   DrawsBefore(g, generation, stream, fp, cfg, first, first) + ParamCount(cfg))
    ensures var k := PairIndex(cfg.parentCount, first, first);
      && k < |Breed(g, generation, stream, fp, cfg).chromosomes|
      && Linearise(Breed(g, generation, stream, fp, cfg).chromosomes[k].network) ==
         Linearise(g.chromosomes[Selected(g, stream, cfg)[first]].network)
  {
    BreedChild(g, generation, stream, fp, cfg, first, first);
    var pgs := Champions(g, stream, cfg);
    MutateAllQuiet(pgs[first], stream, DrawsBefore(g, generation, stream, fp, cfg, first, first), generation, fp);
  }

  // ---------------------------------------------------------------------
  // The loops of `CreateNewGeneration`.

  /** The tournament of every group, in group order. */
  method SelectParents(groups: seq<seq<nat>>, scores: seq<int>) returns (winners: seq<nat>)
    requires Playable(groups, scores)
    ensures winners == Winners(groups, scores)
  {
    winners := [];
    var group := 0;
    while group < |groups|
      invariant 0 <= group <= |groups|
      invariant winners == Winners(groups[..group], scores)
    {
      var max := RunTournament(groups[group], scores);
      assert groups[..group + 1][..group] == groups[..group];
      winners := winners + [max];
      group := group + 1;
    }
    assert groups[..group] == groups;
  }

  /** The encoding loop: each winner's network written out as one bit string. */
  method EncodeParents(g: Generation, winners: seq<nat>, cfg: Config) returns (parents: seq<string>)
    requires ShapedGeneration(g, cfg)
    requires forall i :: 0 <= i < |winners| ==> winners[i] < |g.chromosomes|
    ensures parents == Encoded(ParentGenes(g, winners))
  {
    parents := [];
    var round := 0;
    while round < |winners|
      invariant 0 <= round <= |winners| && |parents| == round
      invariant forall i :: 0 <= i < round ==> parents[i] == Bits(Linearise(g.chromosomes[winners[i]].network))
    {
      var s := EncodeNetwork(g.chromosomes[winners[round]].network, cfg);
      parents := parents + [s];
      round := round + 1;
    }
  }

  /**
   * The first part of `CreateNewGeneration` after `srand`: the tournament
   * groups dealt from the first `BIRD_COUNT` draws, the winner of each,
   * and each winner's network written out as bits.
   */
  method SelectAndEncode(g: Generation, stream: Stream, cfg: Config) returns (parents: seq<string>, next: nat)
    requires cfg.Valid() && ShapedGeneration(g, cfg) && Complete(g, cfg.birdCount)
    ensures parents == Encoded(Champions(g, stream, cfg)) && next == cfg.birdCount
  {
    var groups;
    groups, next := Partition(cfg.birdCount, cfg.parentCount, stream, 0);
    assert groups == Groups(g, stream, cfg);
    var scores := Scores(g, cfg.birdCount);
    var winners := SelectParents(groups, scores);
    assert winners == Selected(g, stream, cfg);
    parents := EncodeParents(g, winners, cfg);
    assert ParentGenes(g, winners) == Champions(g, stream, cfg);
  }

  /** The breeding loops of `CreateNewGeneration`: the new generation's networks from the encoded winners. */
  method BreedChildren(parents: seq<string>, ghost g: Generation, generation: nat, stream: Stream, fp: FloatModel, cfg: Config)
    returns (children: seq<NetworkGenes>, next: nat)
    requires cfg.Valid() && ShapedGeneration(g, cfg) && Complete(g, cfg.birdCount)
    requires parents == Encoded(Champions(g, stream, cfg))
    ensures (children, next) == Children(g, generation, stream, fp, cfg)
  {
    ghost var breed := Breeder(g, generation, stream, fp, cfg);
    BreederOfChampions(g, generation, stream, fp, cfg);
    children, next := BreedAll(parents, breed, generation, stream, fp, cfg.birdCount, cfg);
  }

  /**
   * The body of `CreateNewGeneration` after `srand`: the winners are chosen
   * and encoded, the current generation is cleared and refilled with the
   * children; returns the new generation and the position of the next draw.
   */
  method NextGeneration(g: Generation, generation: nat, stream: Stream, fp: FloatModel, cfg: Config)
    returns (next: Generation, after: nat)
    requires cfg.Valid() && ShapedGeneration(g, cfg) && Complete(g, cfg.birdCount)
    ensures next == Breed(g, generation, stream, fp, cfg)
    ensures after == Children(g, generation, stream, fp, cfg).1
  {
    var parents, _ := SelectAndEncode(g, stream, cfg);
    var children;
    children, after := BreedChildren(parents, g, generation, stream, fp, cfg);
    next := Generation(Unscored(children), None);
  }
}

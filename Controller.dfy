/**
 * `AIController`: the state the game's controller keeps between calls, and
 * the two places where it runs the genetic algorithm. `Init` resumes the
 * run from the generation files on disk, or starts one; `CreateNewGeneration`
 * breeds the next generation from a finished one.
 *
 * The generation files are a field: `files[k]` is the content of
 * `generation_k.json`, for the files 0, 1, ... that exist one after another
 * (the only ones `Init` can see). The C library's random state is the seed
 * of the last `srand` and the number of `rand()` calls made since.
 */
module Controller {
  import opened Wrappers
  import opened Random
  import opened Float32
  import opened Genome
  import opened Selection
  import opened Decoding
  import opened Breeding
  import opened Evolution
  import Networks

  // ---------------------------------------------------------------------
  // The scan of `Init`.

  /** The first bird from `c` on, below `birdCount`, that has no score; `birdCount` if there is none. */
  function FirstUnscoredFrom(g: Generation, birdCount: nat, c: nat): (first: nat)
    requires c <= birdCount
    ensures c <= first <= birdCount
    ensures forall j :: c <= j < first ==> Scored(g, j)
    ensures first < birdCount ==> !Scored(g, first)
    decreases birdCount - c
  {
    if c == birdCount || !Scored(g, c) then c else FirstUnscoredFrom(g, birdCount, c + 1)
  }

  /** The first bird of `g` with no score: `birdCount` exactly when every bird has one. */
  function FirstUnscored(g: Generation, birdCount: nat): (first: nat)
    ensures first <= birdCount
    ensures forall j :: 0 <= j < first ==> Scored(g, j)
    ensures first < birdCount ==> !Scored(g, first)
    ensures first == birdCount <==> Complete(g, birdCount)
  {
    var first := FirstUnscoredFrom(g, birdCount, 0);
    assert first == birdCount && birdCount > 0 ==> Scored(g, birdCount - 1);
    first
  }

  /** The first file from `k` on with a bird that has no score; `|files|` if there is none. */
  function FirstIncompleteFrom(files: seq<Generation>, birdCount: nat, k: nat): (first: nat)
    requires k <= |files|
    ensures k <= first <= |files|
    ensures forall j :: k <= j < first ==> Complete(files[j], birdCount)
    ensures first < |files| ==> !Complete(files[first], birdCount)
    decreases |files| - k
  {
    if k == |files| || !Complete(files[k], birdCount) then k else FirstIncompleteFrom(files, birdCount, k + 1)
  }

  /** The first generation file with a bird that has no score; `|files|` when every file is complete. */
  function FirstIncomplete(files: seq<Generation>, birdCount: nat): (first: nat)
    ensures first <= |files|
    ensures forall j :: 0 <= j < first ==> Complete(files[j], birdCount)
    ensures first < |files| ==> !Complete(files[first], birdCount)
  {
    FirstIncompleteFrom(files, birdCount, 0)
  }

  /** The inner loop of the scan: the first bird with no score, or -1 when every bird has one. */
  method FindUnscored(g: Generation, birdCount: nat) returns (chromosome: int)
    ensures chromosome == if Complete(g, birdCount) then -1 else FirstUnscored(g, birdCount)
  {
    var c := 0;
    while c < birdCount
      invariant 0 <= c <= birdCount
      invariant forall j :: 0 <= j < c ==> Scored(g, j)
    {
      if !Scored(g, c) {
        return c;
      }
      c := c + 1;
    }
    chromosome := -1;
  }

  /**
   * The scan of `Init`: generation files 0, 1, ... are read while the next
   * one exists and until one has a bird with no score. Returns the number
   * of the last file read (-1 when there is none) and its first bird with
   * no score (-1 when every file read is complete).
   */
  method Scan(files: seq<Generation>, birdCount: nat) returns (generationNum: int, chromosomeNum: int)
    ensures var k := FirstIncomplete(files, birdCount);
      if k < |files| then generationNum == k && chromosomeNum == FirstUnscored(files[k], birdCount) < birdCount
      else generationNum == |files| - 1 && chromosomeNum == -1
  {
    generationNum, chromosomeNum := -1, -1;
    while chromosomeNum < 0
      invariant -1 <= generationNum < |files|
      invariant forall j :: 0 <= j < generationNum ==> Complete(files[j], birdCount)
      invariant chromosomeNum < 0 ==> chromosomeNum == -1 && (generationNum >= 0 ==> Complete(files[generationNum], birdCount))
      invariant chromosomeNum >= 0 ==>
        generationNum >= 0 && !Complete(files[generationNum], birdCount) &&
        chromosomeNum == FirstUnscored(files[generationNum], birdCount)
      decreases |files| - generationNum
    {
      if generationNum + 1 >= |files| {
        break;
      }
      generationNum := generationNum + 1;
      chromosomeNum := FindUnscored(files[generationNum], birdCount);
    }
  }

  // ---------------------------------------------------------------------
  // Starting a run: generation 0.

  /**
   * The networks of the first `n` birds of generation 0, drawn one bird
   * after another from draw `pos` on, every weight and bias uniformly from
   * its range; and the position of the next draw.
   */
  function FreshNetworks(stream: Stream, fp: FloatModel, pos: nat, n: nat, cfg: Config): (r: (seq<NetworkGenes>, nat))
    requires cfg.weightMax > 0.0 && cfg.biasMax > 0.0
    ensures |r.0| == n
    ensures forall k :: 0 <= k < n ==> WellShaped(r.0[k], cfg)
    decreases n
  {
    if n == 0 then ([], pos)
    else
      var prefix := FreshNetworks(stream, fp, pos, n - 1, cfg);
      var net := ReadNetwork(GeneSource.Fresh(cfg.weightMax, cfg.biasMax).StepOf(stream, fp), Cursor(0, prefix.1), cfg);
      (prefix.0 + [net.0], net.1.draw)
  }

  /** Bootstrapping takes exactly one draw per parameter of every network. */
  lemma {:induction false} FreshDraws(stream: Stream, fp: FloatModel, pos: nat, n: nat, cfg: Config)
    requires cfg.weightMax > 0.0 && cfg.biasMax > 0.0
    ensures FreshNetworks(stream, fp, pos, n, cfg).1 == pos + n * ParamCount(cfg)
    decreases n
  {
    if n > 0 {
      FreshDraws(stream, fp, pos, n - 1, cfg);
      var prefix := FreshNetworks(stream, fp, pos, n - 1, cfg);
      NetworkDraws(FreshStep(cfg.weightMax, cfg.biasMax, stream, fp), Cursor(0, prefix.1), cfg);
      assert (n - 1) * ParamCount(cfg) + ParamCount(cfg) == n * ParamCount(cfg);
    }
  }

  /**
   * Every weight of every bootstrapped network, hidden and output, is the
   * float nearest to a value in `[-weightMax, weightMax]`, every bias one
   * in `[-biasMax, biasMax]`.
   */
  lemma {:induction false} FreshInRange(stream: Stream, fp: FloatModel, pos: nat, n: nat, cfg: Config)
    requires cfg.weightMax > 0.0 && cfg.biasMax > 0.0
    ensures forall k :: 0 <= k < n ==> NetworkWithin(FreshNetworks(stream, fp, pos, n, cfg).0[k], cfg.weightMax, cfg.biasMax, fp)
    decreases n
  {
    if n > 0 {
      FreshInRange(stream, fp, pos, n - 1, cfg);
      var prefix := FreshNetworks(stream, fp, pos, n - 1, cfg);
      FreshWithin(cfg.weightMax, cfg.biasMax, stream, fp);
      NetworkReadWithin(FreshStep(cfg.weightMax, cfg.biasMax, stream, fp), Cursor(0, prefix.1), cfg, cfg.weightMax, cfg.biasMax, fp);
    }
  }

  /** The bootstrap loop of `Init`: one network per bird, each built gene by gene from fresh draws. */
  method Bootstrap(stream: Stream, fp: FloatModel, pos: nat, cfg: Config) returns (nets: seq<NetworkGenes>, next: nat)
    requires cfg.weightMax > 0.0 && cfg.biasMax > 0.0
    ensures (nets, next) == FreshNetworks(stream, fp, pos, cfg.birdCount, cfg)
  {
    nets, next := [], pos;
    var chromosome := 0;
    while chromosome < cfg.birdCount
      invariant 0 <= chromosome <= cfg.birdCount
      invariant (nets, next) == FreshNetworks(stream, fp, pos, chromosome, cfg)
    {
      var net, cur := TakeNetwork(GeneSource.Fresh(cfg.weightMax, cfg.biasMax), stream, fp, Cursor(0, next), cfg);
      nets, next := nets + [net], cur.draw;
      chromosome := chromosome + 1;
    }
  }

  /**
   * `prior` followed by one evaluator per bird of `g`, each built from the
   * bird's chromosome.
   */
  ghost predicate Appended(nets: seq<Networks.Network>, prior: seq<Networks.Network>, g: Generation,
                           fp: FloatModel, cfg: Config)
  {
    |nets| == |prior| + cfg.birdCount && nets[..|prior|] == prior &&
    forall k :: 0 <= k < cfg.birdCount && k < |g.chromosomes| ==>
      nets[|prior| + k] == Networks.FromGenes(g.chromosomes[k].network, fp)
  }

  /** Every evaluator has the run's topology. */
  ghost predicate AllShaped(nets: seq<Networks.Network>, cfg: Config)
  {
    forall k :: 0 <= k < |nets| ==> Networks.Shaped(nets[k], cfg)
  }

  /**
   * The last loop of `Init`: an evaluator per bird, built from its
   * chromosome, pushed after those already there. The new ones have the
   * run's topology.
   */
  method AppendNetworks(prior: seq<Networks.Network>, g: Generation, fp: FloatModel, cfg: Config)
    returns (nets: seq<Networks.Network>)
    requires ShapedGeneration(g, cfg)
    ensures Appended(nets, prior, g, fp, cfg)
    ensures AllShaped(prior, cfg) ==> AllShaped(nets, cfg)
  {
    nets := prior;
    var chromosome := 0;
    while chromosome < cfg.birdCount
      invariant 0 <= chromosome <= cfg.birdCount && |nets| == |prior| + chromosome
      invariant nets[..|prior|] == prior
      invariant forall k :: 0 <= k < chromosome ==> nets[|prior| + k] == Networks.FromGenes(g.chromosomes[k].network, fp)
    {
      var net := Networks.Build(g.chromosomes[chromosome].network, fp, cfg);
      nets := nets + [net];
      chromosome := chromosome + 1;
    }
    forall k | |prior| <= k < |nets|
      ensures Networks.Shaped(nets[k], cfg)
    {
      Networks.FromGenesShaped(g.chromosomes[k - |prior|].network, fp, cfg);
    }
  }

  // ---------------------------------------------------------------------
  // Files, seeds and scores.

  /** The files after `generation_k.json` is written with `g`: created after the last one, or overwritten. */
  function Saved(files: seq<Generation>, k: nat, g: Generation): (r: seq<Generation>)
    requires k <= |files|
    ensures |r| == if k < |files| then |files| else |files| + 1
    ensures r[k] == g
    ensures forall j :: 0 <= j < |files| && j != k ==> r[j] == files[j]
  {
    if k < |files| then files[k := g] else files + [g]
  }

  /** The seed `CreateNewGeneration` passes to `srand`: the generation's own, or else the clock's. */
  function SeedOf(g: Generation, clock: nat): Seed
  {
    if g.seed.Some? then g.seed.value else SeedFromClock(clock)
  }

  /** The finished generation as saved: its seed recorded, nothing else changed. */
  function Seeded(g: Generation, clock: nat): (s: Generation)
    ensures s.chromosomes == g.chromosomes && s.seed == Some(SeedOf(g, clock))
    ensures g.seed.Some? ==> s == g
    ensures forall k: nat :: Scored(s, k) <==> Scored(g, k)
    ensures forall n: nat :: Complete(s, n) <==> Complete(g, n)
    ensures forall cfg: Config :: ShapedGeneration(s, cfg) <==> ShapedGeneration(g, cfg)
  {
    g.(seed := Some(SeedOf(g, clock)))
  }

  /** The generation after bird `bird` died with `score`. */
  function Record(g: Generation, bird: nat, score: int): (r: Generation)
    requires bird < |g.chromosomes|
    ensures r.seed == g.seed && |r.chromosomes| == |g.chromosomes|
    ensures r.chromosomes[bird] == Chromosome(g.chromosomes[bird].network, Some(score))
    ensures forall k :: 0 <= k < |g.chromosomes| && k != bird ==> r.chromosomes[k] == g.chromosomes[k]
  {
    g.(chromosomes := g.chromosomes[bird := g.chromosomes[bird].(score := Some(score))])
  }

  /** Recording a score keeps the topology and scores exactly one more bird. */
  lemma RecordScores(g: Generation, bird: nat, score: int, cfg: Config)
    requires bird < |g.chromosomes|
    ensures ShapedGeneration(g, cfg) ==> ShapedGeneration(Record(g, bird, score), cfg)
    ensures forall k: nat :: Scored(Record(g, bird, score), k) <==> k == bird || Scored(g, k)
  {
    var r := Record(g, bird, score);
    if ShapedGeneration(g, cfg) {
      forall k | 0 <= k < |r.chromosomes|
        ensures WellShaped(r.chromosomes[k].network, cfg)
      {
        assert r.chromosomes[k].network == g.chromosomes[k].network;
      }
    }
  }

  // ---------------------------------------------------------------------
  // The two transitions of the run, on the values of the controller's fields.

  /**
   * What `CreateNewGeneration` and `Init` write: the current generation,
   * the file and bird the run is at, the generation files, and the random
   * state (the seed of the last `srand` and the draws since).
   */
  datatype RunState = RunState(current: Generation, generationNum: int, chromosomeNum: int,
                               files: seq<Generation>, seed: Seed, draws: nat)
  {
    /**
     * The run is at a bird of the current generation that has no score yet,
     * every bird before it has one, and the current generation is the one
     * saved as file `generationNum`.
     */
    ghost predicate AtUnscoredBird(cfg: Config)
    {
      0 <= chromosomeNum < cfg.birdCount && ShapedGeneration(current, cfg) &&
      !Scored(current, chromosomeNum) && (forall j :: 0 <= j < chromosomeNum ==> Scored(current, j)) &&
      0 <= generationNum < |files| && files[generationNum] == current
    }
  }

  /**
   * `CreateNewGeneration` from finished generation `g`, file number
   * `generationNum`: `g` keeps its seed or records the clock's and is saved
   * with it; the next generation is bred from the stream of that seed and
   * saved as the next file, and the run moves to its first bird.
   */
  function NewGeneration(g: Generation, generationNum: nat, files: seq<Generation>, clock: nat,
                         gen: Generator, fp: FloatModel, cfg: Config): (r: RunState)
    requires cfg.Valid() && ShapedGeneration(g, cfg) && Complete(g, cfg.birdCount)
    requires generationNum <= |files|
    ensures r.generationNum == generationNum + 1 && r.chromosomeNum == 0 && ShapedGeneration(r.current, cfg)
    ensures |r.files| == if generationNum + 2 <= |files| then |files| else generationNum + 2
    ensures r.files[generationNum] == Seeded(g, clock) && r.seed == SeedOf(g, clock)
    ensures forall j :: 0 <= j < |files| && j != generationNum && j != generationNum + 1 ==> r.files[j] == files[j]
  {
    var finished := Seeded(g, clock);
    var stream := gen(SeedOf(g, clock));
    var next := Breed(finished, generationNum + 1, stream, fp, cfg);
    RunState(next, generationNum + 1, 0, Saved(Saved(files, generationNum, finished), generationNum + 1, next),
             SeedOf(g, clock), Children(finished, generationNum + 1, stream, fp, cfg).1)
  }

  /** After `CreateNewGeneration` the run is at the first bird of the new generation, which has no score. */
  lemma NewGenerationAtUnscoredBird(g: Generation, generationNum: nat, files: seq<Generation>, clock: nat,
                                    gen: Generator, fp: FloatModel, cfg: Config)
    requires cfg.Valid() && ShapedGeneration(g, cfg) && Complete(g, cfg.birdCount)
    requires generationNum <= |files|
    ensures NewGeneration(g, generationNum, files, clock, gen, fp, cfg).AtUnscoredBird(cfg)
  {
    var r := NewGeneration(g, generationNum, files, clock, gen, fp, cfg);
    assert r.current == Breed(Seeded(g, clock), generationNum + 1, gen(SeedOf(g, clock)), fp, cfg);
    assert cfg.birdCount > 0;
  }

  /**
   * `Init` before the evaluators are built, from the files on disk and the
   * random state: with no file, generation 0 drawn from the current state
   * and saved as file 0; with a file that has a bird with no score, the
   * first such file at its first such bird; when every file is complete,
   * the generation `CreateNewGeneration` breeds from the last one.
   */
  function Resumed(files: seq<Generation>, seed: Seed, draws: nat, clock: nat,
                   gen: Generator, fp: FloatModel, cfg: Config): (r: RunState)
    requires cfg.Valid()
    requires forall k :: 0 <= k < |files| ==> ShapedGeneration(files[k], cfg)
    ensures |files| <= |r.files| && forall j :: 0 <= j < |files| - 1 ==> r.files[j] == files[j]
  {
    var k := FirstIncomplete(files, cfg.birdCount);
    if |files| == 0 then
      var drawn := FreshNetworks(gen(seed), fp, draws, cfg.birdCount, cfg);
      var first := Generation(Unscored(drawn.0), None);
      RunState(first, 0, 0, [first], seed, drawn.1)
    else if k < |files| then
      RunState(files[k], k, FirstUnscored(files[k], cfg.birdCount), files, seed, draws)
    else
      NewGeneration(files[|files| - 1], |files| - 1, files, clock, gen, fp, cfg)
  }

  /**
   * A transition interrupted after the finished generation was saved with
   * its seed replays identically: started again from the saved file, with
   * any clock, it writes the same state.
   */
  lemma NewGenerationReplays(g: Generation, generationNum: nat, files: seq<Generation>, clock: nat, later: nat,
                             gen: Generator, fp: FloatModel, cfg: Config)
    requires cfg.Valid() && ShapedGeneration(g, cfg) && Complete(g, cfg.birdCount)
    requires generationNum <= |files|
    ensures var saved := Seeded(g, clock);
      ShapedGeneration(saved, cfg) && Complete(saved, cfg.birdCount) &&
      NewGeneration(saved, generationNum, Saved(files, generationNum, saved), later, gen, fp, cfg) ==
      NewGeneration(g, generationNum, files, clock, gen, fp, cfg)
  {
    var saved := Seeded(g, clock);
    assert Seeded(saved, later) == saved && SeedOf(saved, later) == SeedOf(g, clock);
    assert Saved(Saved(files, generationNum, saved), generationNum, saved) == Saved(files, generationNum, saved);
  }

  /** Wherever `Init` resumes, the run is at a bird with no score, every bird before it has one. */
  lemma ResumedAtUnscoredBird(files: seq<Generation>, seed: Seed, draws: nat, clock: nat,
                              gen: Generator, fp: FloatModel, cfg: Config)
    requires cfg.Valid()
    requires forall k :: 0 <= k < |files| ==> ShapedGeneration(files[k], cfg)
    ensures Resumed(files, seed, draws, clock, gen, fp, cfg).AtUnscoredBird(cfg)
  {
    var k := FirstIncomplete(files, cfg.birdCount);
    if |files| == 0 {
      var first := Resumed(files, seed, draws, clock, gen, fp, cfg).current;
      assert cfg.birdCount > 0 && !Scored(first, 0);
    } else if k == |files| {
      NewGenerationAtUnscoredBird(files[|files| - 1], |files| - 1, files, clock, gen, fp, cfg);
    }
  }

  /** The body of `CreateNewGeneration`, step by step as the program takes them. */
  method NewGenerationOf(g: Generation, generationNum: nat, files: seq<Generation>, clock: nat,
                         gen: Generator, fp: FloatModel, cfg: Config) returns (r: RunState)
    requires cfg.Valid() && ShapedGeneration(g, cfg) && Complete(g, cfg.birdCount)
    requires generationNum <= |files|
    ensures r == NewGeneration(g, generationNum, files, clock, gen, fp, cfg)
  {
    var seed := SeedOf(g, clock);
    var finished := Seeded(g, clock);
    assert ShapedGeneration(finished, cfg) && Complete(finished, cfg.birdCount);
    var saved := Saved(files, generationNum, finished);
    var next, draws := NextGeneration(finished, generationNum + 1, gen(seed), fp, cfg);
    saved := Saved(saved, generationNum + 1, next);
    r := RunState(next, generationNum + 1, 0, saved, seed, draws);
  }

  /** The body of `Init` before the evaluators: the scan, then the bootstrap or the breeding. */
  method ResumeOf(files: seq<Generation>, seed: Seed, draws: nat, clock: nat,
                  gen: Generator, fp: FloatModel, cfg: Config) returns (r: RunState)
    requires cfg.Valid()
    requires forall k :: 0 <= k < |files| ==> ShapedGeneration(files[k], cfg)
    ensures r == Resumed(files, seed, draws, clock, gen, fp, cfg)
  {
    var generationNum, chromosomeNum := Scan(files, cfg.birdCount);
    if generationNum < 0 {
      var nets, next := Bootstrap(gen(seed), fp, draws, cfg);
      var first := Generation(Unscored(nets), None);
      r := RunState(first, 0, 0, Saved(files, 0, first), seed, next);
      assert r.files == [first];
    } else if chromosomeNum < 0 {
      r := NewGenerationOf(files[generationNum], generationNum, files, clock, gen, fp, cfg);
    } else {
      r := RunState(files[generationNum], generationNum, chromosomeNum, files, seed, draws);
    }
  }

  // ---------------------------------------------------------------------
  // The controller.

  class AIController {
    /** `rand()` after `srand(s)`: the stream of seed s. */
    const gen: Generator
    const fp: FloatModel
    /** The constants of the run: BIRD_COUNT, PARENT_COUNT, the topology and the initial ranges. */
    const cfg: Config

    /** `m_pGameState != nullptr`. */
    var hasGameState: bool
    /** `m_bShouldFlap`. */
    var flap: bool
    /** `_neuralNetworks`: one evaluator per bird. */
    var networks: seq<Networks.Network>
    /** `_currentGeneration`. */
    var current: Generation
    /** `_currentGenerationNum`. */
    var generationNum: int
    /** `_currentChromosomeNum`. */
    var chromosomeNum: int
    /** The generation files on disk. */
    var files: seq<Generation>
    /** The seed of the last `srand`, and the number of `rand()` calls since. */
    var seed: Seed
    var draws: nat

    /** Every bird has an evaluator of the run's topology, so `update` can call it. */
    ghost predicate Ready()
      reads this
    {
      cfg.hiddenLayerCount >= 1 && |networks| == cfg.birdCount && AllShaped(networks, cfg)
    }

    /**
     * No game state yet and no flap pending. The C library starts as if
     * `srand(1)` had been called. The counters, which the program leaves
     * unset until `Init`, start at -1.
     */
    constructor (gen: Generator, fp: FloatModel, cfg: Config, files: seq<Generation>)
      ensures this.gen == gen && this.fp == fp && this.cfg == cfg && this.files == files
      ensures !hasGameState && !flap && networks == [] && current == Generation([], None)
      ensures generationNum == -1 && chromosomeNum == -1
      ensures seed == DefaultSeed && draws == 0
    {
      this.gen, this.fp, this.cfg, this.files := gen, fp, cfg, files;
      hasGameState, flap := false, false;
      networks, current := [], Generation([], None);
      generationNum, chromosomeNum := -1, -1;
      seed, draws := DefaultSeed, 0;
    }

    /** `setGameState`. */
    method SetGameState(present: bool)
      modifies this`hasGameState
      ensures hasGameState == present
    {
      hasGameState := present;
    }

    /**
     * `update`: with a game state and a live bird, the flag becomes whether
     * the bird's network answers +1 on the sensor readings `inputs`;
     * otherwise nothing changes.
     */
    method Update(bird: nat, dead: bool, inputs: seq<real>)
      requires hasGameState && !dead ==> Ready() && bird < cfg.birdCount && |inputs| <= cfg.inputCount
      modifies this`flap
      ensures if hasGameState && !dead then
          Networks.Accepts(networks[bird], |inputs|, 0) &&
          flap == (Networks.Forward(networks[bird], inputs, 0) == 1.0)
        else flap == old(flap)
    {
      if !hasGameState || dead {
        return;
      }
      Networks.AcceptsFrom(networks[bird], cfg, |inputs|, 0);
      var out := Networks.Calculate(networks[bird], inputs, 0);
      flap := out > 0.0;
    }

    /** `shouldFlap`: the pending flag, which is cleared. */
    method ShouldFlap() returns (output: bool)
      modifies this`flap
      ensures output == old(flap) && !flap
    {
      output := flap;
      flap := false;
    }

    /** `BirdDied`: the bird's chromosome gets its score; nothing else changes. */
    method BirdDied(bird: nat, score: int)
      requires bird < |current.chromosomes|
      modifies this`current
      ensures current == Record(old(current), bird, score)
    {
      current := current.(chromosomes := current.chromosomes[bird := current.chromosomes[bird].(score := Some(score))]);
    }

    /** `SaveCurrentGeneration`: the current generation is written as file `generationNum`. */
    method SaveCurrentGeneration()
      requires 0 <= generationNum <= |files|
      modifies this`files
      ensures files == Saved(old(files), generationNum, current)
    {
      if generationNum < |files| {
        files := files[generationNum := current];
      } else {
        files := files + [current];
      }
    }

    /** The fields `CreateNewGeneration` and `Init` write, as one value. */
    function State(): RunState
      reads this
    {
      RunState(current, generationNum, chromosomeNum, files, seed, draws)
    }

    /** Those fields take the values of `r`. */
    method SetState(r: RunState)
      modifies this`current, this`seed, this`draws, this`files, this`generationNum, this`chromosomeNum
      ensures State() == r
    {
      current, generationNum, chromosomeNum, files, seed, draws := r.current, r.generationNum, r.chromosomeNum, r.files, r.seed, r.draws;
    }

    /** Those fields take the values of `r`, and `networks` becomes `nets`. */
    method SetStateAndNetworks(r: RunState, nets: seq<Networks.Network>)
      modifies this`current, this`seed, this`draws, this`files, this`generationNum, this`chromosomeNum, this`networks
      ensures State() == r && networks == nets
    {
      SetState(r);
      networks := nets;
    }

    /**
     * `CreateNewGeneration`, with `clock` the value of `time(NULL)`: the
     * transition `NewGeneration` from the current, complete generation.
     */
    method CreateNewGeneration(clock: nat)
      requires cfg.Valid() && ShapedGeneration(current, cfg) && Complete(current, cfg.birdCount)
      requires 0 <= generationNum <= |files|
      modifies this`current, this`seed, this`draws, this`files, this`generationNum, this`chromosomeNum
      ensures State() == NewGeneration(old(current), old(generationNum), old(files), clock, gen, fp, cfg)
    {
      var r := NewGenerationOf(current, generationNum, files, clock, gen, fp, cfg);
      SetState(r);
    }

    /**
     * `Init`: the run resumes as `Resumed` says from the files on disk and
     * the random state, and the evaluator of each bird's chromosome is
     * appended to `networks`; on a fresh controller that makes it `Ready`.
     */
    method Init(clock: nat)
      requires cfg.Valid()
      requires forall k :: 0 <= k < |files| ==> ShapedGeneration(files[k], cfg)
      modifies this`current, this`seed, this`draws, this`files, this`generationNum, this`chromosomeNum, this`networks
      ensures State() == Resumed(old(files), old(seed), old(draws), clock, gen, fp, cfg)
      ensures State().AtUnscoredBird(cfg)
      ensures Appended(networks, old(networks), current, fp, cfg)
      ensures old(networks) == [] ==> Ready()
    {
      ResumedAtUnscoredBird(files, seed, draws, clock, gen, fp, cfg);
      var r := ResumeOf(files, seed, draws, clock, gen, fp, cfg);
      var nets := AppendNetworks(networks, r.current, fp, cfg);
      SetStateAndNetworks(r, nets);
    }
  }
}

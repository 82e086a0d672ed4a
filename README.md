# FlappyBird genetic algorithm: a verified model

This project models the part of the FlappyBird AI that learns. A
population of birds each flies with its own small feed-forward network. When
every bird of a generation has died and has a score, the controller breeds
the next generation:

- it deals the birds at random into `PARENT_COUNT` tournament groups;
- it keeps the best bird of each group;
- it writes each winner's weights and biases out as a string of bits;
- it crosses every ordered pair of winners block by block;
- it decodes each child back into a network, mutating every parameter with
  probability 1/100 by an amount that shrinks as generations pass.

Generations are saved as files so a run can stop and resume. The random
generator is re-seeded from a seed stored in the generation, so a breeding
step can be replayed.

The modules follow the program:

| module | models |
|---|---|
| `Neurons` | `Neuron`: weighted sum, bias, sign activation |
| `Networks` | `NeuralNetwork`: construction from a chromosome, layer-by-layer evaluation |
| `Genome` | the saved generation as data; the fixed traversal order of a network's parameters |
| `Random` | `rand`/`srand` as an explicit stream per seed |
| `Float32` | how a 32-bit pattern is read as a number and a number is stored back |
| `GeneCodec` | a parameter's bit pattern as 32 characters and back |
| `Recombination` | alternating-block crossover |
| `Mutation` | `Mutate` and its annealed bound |
| `Selection` | the random round-robin deal into groups and the tournament of one group |
| `Decoding` | the nested decoding loops, shared by breeding and by the first generation's random draws |
| `Breeding` | the loops over ordered pairs of winners |
| `Evolution` | `CreateNewGeneration` after `srand`, as one value and as loops |
| `Controller` | `AIController`: the scan and resume of `Init`, the two transitions of the run, `update`, `shouldFlap`, `BirdDied` |

`AIController` is a class whose methods update its fields. The loops of
the program are methods proved against recursive functions of the inputs.
Properties relating several calls are lemmas about those functions.

How the program seeds its random draws:

- Generation 0 is drawn from the C library's state at that point, with no
  seed of its own (`Controller.Resumed`).
- When a generation is finished, `CreateNewGeneration`
  (FlappyBird/AIController.cpp:289-295) keeps the generation's seed if it
  has one. Otherwise it records the clock as the seed, then saves the
  generation.
- The new generation starts from a cleared object
  (FlappyBird/AIController.cpp:374), so it has no seed until it is finished
  in turn.
- So every generation is bred from the seed of the generation it was bred
  from, recorded when that generation finished (`Controller.Seeded`,
  `Evolution.Breed`).

## Model

| member | source | states |
|---|---|---|
| Neurons.Activate | FlappyBird/Neuron.cpp:20-25 | the activation is -1 exactly when the sum is negative and +1 exactly when it is not, zero included |
| Neurons.Output | FlappyBird/Neuron.cpp:10-17 | a neuron answers only -1 or +1, and +1 exactly when the weighted sum of the inputs plus the bias is non-negative |
| Neurons.WeightedSumPrefix | FlappyBird/Neuron.cpp:12-14 | the sum over `n` inputs reads only the first `n` weights |
| Neurons.SurplusWeightsIgnored | FlappyBird/Neuron.cpp:12-16 | weights beyond the number of inputs never change the output |
| Neurons.Calculate | FlappyBird/Neuron.cpp:10-17 | the summing loop followed by the activation returns `Output` |
| Networks.Values | FlappyBird/NeuralNetwork.cpp:16-18 | each stored parameter is read, in order, as the float its pattern stands for |
| Networks.NeuronOf | FlappyBird/NeuralNetwork.cpp:14-22 | a neuron keeps every weight in order and its bias |
| Networks.LayerOf | FlappyBird/NeuralNetwork.cpp:10-25 | a layer keeps its neurons in order |
| Networks.HiddenOf | FlappyBird/NeuralNetwork.cpp:6-26 | the hidden layers are kept in order |
| Networks.LayerOutputs | FlappyBird/NeuralNetwork.cpp:53-57 | one output per neuron of the layer, in neuron order, each that neuron's answer on the same inputs |
| Networks.Forward | FlappyBird/NeuralNetwork.cpp:48-60 | the network's answer is always -1 or +1 |
| Networks.FromGenesShaped | FlappyBird/NeuralNetwork.cpp:4-37 | building a network keeps the topology of its chromosome |
| Networks.AcceptsFrom | FlappyBird/NeuralNetwork.cpp:48-60 | a network of the run's topology can evaluate, from any layer, every input vector no longer than that layer's fan-in |
| Networks.BuiltAccepts | FlappyBird/NeuralNetwork.cpp:48-60 | `Calculate(inputs, 0)` on a network built from a chromosome of the run never reads past a weight list |
| Networks.Build | FlappyBird/NeuralNetwork.cpp:4-37 | the constructor's loops build `FromGenes` of the chromosome |
| Networks.BuildLayer | FlappyBird/NeuralNetwork.cpp:10-25 | the neuron loop builds the layer's neurons in order |
| Networks.BuildNeuron | FlappyBird/NeuralNetwork.cpp:14-22 | the weight loop and the bias build the neuron |
| Networks.Calculate | FlappyBird/NeuralNetwork.cpp:48-60 | the recursive evaluation with its loop over a layer returns `Forward` |
| Random.Uniform | FlappyBird/AIController.cpp:101-105 | for a floating-point `max`, `rand() / (RAND_MAX / (max * 2)) - max` always lies in [-max, max] |
| Genome.LineariseLength | FlappyBird/AIController.cpp:383-415 | a network of the run's topology has exactly `ParamCount` parameters |
| Genome.HiddenGeneListLength | FlappyBird/AIController.cpp:383-402 | the hidden layers of the run's topology hold `HiddenSize` parameters |
| GeneCodec.EncodeBits | FlappyBird/AIController.cpp:394-395 | the first `k` characters of a gene's text are 0s and 1s, character i being bit 31 - i |
| GeneCodec.EncodeGene | FlappyBird/AIController.cpp:394-395 | a gene is written as 32 characters 0/1, character i is '1' exactly when bit 31 - i is set |
| GeneCodec.DecodeEncodePrefix | FlappyBird/AIController.cpp:490-494 | after `k` passes of the decoding loop over an encoded gene, the top `k` bits are those of the gene and the rest are clear |
| GeneCodec.DecodeEncode | FlappyBird/AIController.cpp:394-395 | decoding the text of a gene gives back exactly its bit pattern |
| GeneCodec.ReadGene | FlappyBird/AIController.cpp:490-494 | the 32-pass loop at `currentOffset` decodes that block of the child |
| GeneCodec.Bits | FlappyBird/AIController.cpp:392-415 | a list of genes is written as 32 characters per gene |
| GeneCodec.BitsAppend | FlappyBird/AIController.cpp:392-415 | the text of two gene lists in a row is the first's text followed by the second's |
| GeneCodec.BitsBlock | FlappyBird/AIController.cpp:392-415 | block i of the text of a gene list is the text of gene i |
| GeneCodec.BitsBinary | FlappyBird/AIController.cpp:392-415 | the text of a gene list holds only 0s and 1s |
| GeneCodec.DecodeBlock | FlappyBird/AIController.cpp:488-494 | decoding block i of an encoded gene list gives gene i |
| GeneCodec.BitsEncode | FlappyBird/AIController.cpp:488-494 | an encoded gene list decodes, block by block, back to that list |
| GeneCodec.EncodeNeuron | FlappyBird/AIController.cpp:392-400 | a neuron is written as its weights in order, then its bias |
| GeneCodec.EncodeLayer | FlappyBird/AIController.cpp:388-401 | a layer is written neuron after neuron |
| GeneCodec.EncodeNetwork | FlappyBird/AIController.cpp:380-415 | a winner is written in traversal order, 32 characters per parameter, all 0s and 1s |
| Recombination.Crossover | FlappyBird/AIController.cpp:440-446 | after `k` passes the child holds `k` blocks |
| Recombination.Child | FlappyBird/AIController.cpp:440-446 | the child has as many whole blocks as the first parent |
| Recombination.CrossoverBinary | FlappyBird/AIController.cpp:440-446 | the child of two strings of 0s and 1s holds only 0s and 1s |
| Recombination.CrossoverBlocks | FlappyBird/AIController.cpp:440-446 | block i of the child is block i of the first parent for even i and of the second for odd i |
| Recombination.CrossoverSelfPrefix | FlappyBird/AIController.cpp:440-446 | crossing a string with itself gives its first `k` blocks |
| Recombination.CrossoverSelf | FlappyBird/AIController.cpp:431-446 | crossing a chromosome with itself copies it, so copying when `first == second` breeds the same child crossover would |
| Recombination.Alternate | FlappyBird/AIController.cpp:440-446 | the inherited gene list takes gene i from the first parent when i is even and from the second when it is odd |
| Recombination.CrossoverOfBits | FlappyBird/AIController.cpp:440-446 | the first `k` blocks of the child of two encodings encode the first `k` alternated genes |
| Recombination.ChildOfBits | FlappyBird/AIController.cpp:440-446 | the child of two encoded gene lists is the encoding of their alternation: crossover never splits a gene |
| Recombination.Cross | FlappyBird/AIController.cpp:440-446 | the crossover loop builds `Child` |
| Mutation.MutationBound | FlappyBird/AIController.cpp:573-578 | the largest perturbation lies between 0.01 and 1.0 |
| Mutation.MutationBoundAnnealed | FlappyBird/AIController.cpp:573-580 | the bound never grows from one generation to a later one |
| Mutation.Mutate | FlappyBird/AIController.cpp:568-587 | a shut gate keeps the gene and takes one draw; an open gate takes two draws and moves the value by at most the generation's bound |
| Mutation.MutateAll | FlappyBird/AIController.cpp:488-536 | mutating a gene list keeps its length and takes between one and two draws per gene |
| Mutation.MutateAllQuiet | FlappyBird/AIController.cpp:571 | while no gate opens, mutation changes nothing and takes one draw per gene |
| Mutation.MutateAllSnoc | FlappyBird/AIController.cpp:488-536 | mutating one more gene continues from the draw where the others stopped |
| Mutation.MutateAllAppend | FlappyBird/AIController.cpp:488-536 | mutating two runs of genes is mutating the first, then the second from where the first stopped |
| Mutation.MutateAllBounded | FlappyBird/AIController.cpp:568-587 | every gene is either kept or moved by at most the generation's bound |
| Selection.Deal | FlappyBird/AIController.cpp:321-332 | the deal keeps the number of groups |
| Selection.DealDraws | FlappyBird/AIController.cpp:322-325 | the deal makes one draw per element of `temp` |
| Selection.DealMembers | FlappyBird/AIController.cpp:322-332 | every element of `temp` lands in exactly one group, once |
| Selection.BalancedStep | FlappyBird/AIController.cpp:327-331 | giving one member to the current group and moving on keeps the round-robin shape |
| Selection.DealBalanced | FlappyBird/AIController.cpp:321-332 | the round-robin shape survives the deal and no group shrinks |
| Selection.DealFills | FlappyBird/AIController.cpp:321-332 | when `temp` reaches every group, none is left empty |
| Selection.DealPartitions | FlappyBird/AIController.cpp:308-332 | the deal partitions the birds: each once, group sizes within one, no group empty when N >= P, N draws |
| Selection.Partition | FlappyBird/AIController.cpp:308-332 | the dealing loop returns `Deal`, a partition of the birds into nearly equal, non-empty groups, after N draws |
| Selection.WinnerOf | FlappyBird/AIController.cpp:353-362 | the winner is a member of the group |
| Selection.WinnerIsMaximum | FlappyBird/AIController.cpp:353-362 | no member of the group scores more than the winner |
| Selection.WinnerComesFirst | FlappyBird/AIController.cpp:359-361 | on a tie the earliest member wins: every member before the winner scores strictly less |
| Selection.RunTournament | FlappyBird/AIController.cpp:353-362 | the comparison loop returns `WinnerOf` |
| Decoding.ReadGenes | FlappyBird/AIController.cpp:488-497 | the weight loop reads exactly `count` genes |
| Decoding.ReadNeuron | FlappyBird/AIController.cpp:480-506 | a decoded neuron has exactly `fanIn` weights |
| Decoding.ReadLayer | FlappyBird/AIController.cpp:478-510 | a decoded layer has `n` neurons of `fanIn` weights each |
| Decoding.ReadHidden | FlappyBird/AIController.cpp:473-514 | the decoded hidden layers have the run's topology |
| Decoding.ReadNetwork | FlappyBird/AIController.cpp:470-539 | a decoded network always has the run's topology |
| Decoding.ReadGenesAppend | FlappyBird/AIController.cpp:488-497 | reading `a + b` genes reads `a`, then `b` from where they stopped |
| Decoding.ReadGenesJoin | FlappyBird/AIController.cpp:488-497 | two consecutive runs of genes read as one run |
| Decoding.NeuronInOrder | FlappyBird/AIController.cpp:480-506 | a neuron's weights then bias are the next `fanIn + 1` genes, in order |
| Decoding.LayerInOrder | FlappyBird/AIController.cpp:478-510 | a layer holds the next `LayerSize` genes, in order |
| Decoding.HiddenInOrder | FlappyBird/AIController.cpp:473-514 | the hidden layers hold the next `HiddenSize` genes, in order |
| Decoding.NetworkInOrder | FlappyBird/AIController.cpp:470-539 | decoding visits the parameters in the order encoding wrote them: the network's parameter list is the next `ParamCount` genes |
| Decoding.GenesDraws | FlappyBird/AIController.cpp:101-102 | drawing `count` fresh weights takes `count` draws and reads no block |
| Decoding.NeuronDraws | FlappyBird/AIController.cpp:92-108 | a fresh neuron takes one draw per weight and one for the bias |
| Decoding.LayerDraws | FlappyBird/AIController.cpp:88-112 | a fresh layer takes one draw per parameter |
| Decoding.HiddenDraws | FlappyBird/AIController.cpp:86-113 | fresh hidden layers take one draw per parameter |
| Decoding.NetworkDraws | FlappyBird/AIController.cpp:84-126 | a fresh network takes exactly `ParamCount` draws |
| Decoding.FreshWithin | FlappyBird/AIController.cpp:101-105 | a bootstrap weight is the float nearest to a value in the weight range, a bias one in the bias range |
| Decoding.NetworkReadWithin | FlappyBird/AIController.cpp:84-126 | a network read gene by gene from a step that stays in those ranges has every weight and bias in them |
| Decoding.ChildStep | FlappyBird/AIController.cpp:488-506 | the decoding step treats weights and biases alike |
| Decoding.FreshStep | FlappyBird/AIController.cpp:101-105 | the bootstrap step takes exactly one draw per parameter and reads no block |
| Decoding.ChildStepAt | FlappyBird/AIController.cpp:490-496 | at a block that decodes to `g`, the step yields `g` passed through `Mutate` and moves one block on |
| Decoding.ReadGenesOfChild | FlappyBird/AIController.cpp:488-497 | reading an encoded gene list gives that list passed through `Mutate`, gene after gene |
| Decoding.TakeGene | FlappyBird/AIController.cpp:490-496 | one gene: for a child, the bit loop then `Mutate`, moving one block; when fresh, one draw |
| Decoding.TakeNeuron | FlappyBird/AIController.cpp:480-506 | the weight loop then the bias produce `ReadNeuron` |
| Decoding.TakeLayer | FlappyBird/AIController.cpp:478-510 | the neuron loop produces `ReadLayer` |
| Decoding.TakeNetwork | FlappyBird/AIController.cpp:470-539 | the layer loop then the output neuron produce `ReadNetwork`, reading `ParamCount` blocks of a child |
| Decoding.DecodeBits | FlappyBird/AIController.cpp:465-539 | a decoded child always has the run's topology |
| Decoding.DecodeNetwork | FlappyBird/AIController.cpp:465-545 | the decoding loops produce `DecodeBits`; the length check fails exactly when the child is longer than the parameters it holds |
| Decoding.DecodeChild | FlappyBird/AIController.cpp:465-545 | decoding the encoding of a gene list gives that list passed through `Mutate`, and the length check never reports a failure |
| Breeding.Encoded | FlappyBird/AIController.cpp:378-422 | `winningChromosomes[i]` is the text of winner i's parameters |
| Breeding.ChildBits | FlappyBird/AIController.cpp:430-446 | the child string of a pair holds only 0s and 1s |
| Breeding.PairBreeder | FlappyBird/AIController.cpp:429-546 | breeding a pair copies or crosses the two strings and decodes the result; every child has the run's topology |
| Breeding.BreedRow | FlappyBird/AIController.cpp:428-547 | a row of the inner loop breeds one child per `second` |
| Breeding.BreedRowsLength | FlappyBird/AIController.cpp:427-428 | the loops breed `P * P` children |
| Breeding.BreedRowShaped | FlappyBird/AIController.cpp:428-547 | every child of a row has the run's topology |
| Breeding.BreedRowsShaped | FlappyBird/AIController.cpp:427-547 | every child of the loops has the run's topology |
| Breeding.PairIndex | FlappyBird/AIController.cpp:542-546 | the child of a pair is written below `P * P` |
| Breeding.BreedRowAt | FlappyBird/AIController.cpp:428-547 | child `second` of a row is bred from the draw where the children before it stopped |
| Breeding.BreedRowsAt | FlappyBird/AIController.cpp:427-547 | the child at `first * P + second` is the child of `first` and `second`, bred from where the previous children stopped |
| Breeding.Mix | FlappyBird/AIController.cpp:431-446 | the gene list a child inherits takes even genes from `first` and odd genes from `second` |
| Breeding.EncodedBreedable | FlappyBird/AIController.cpp:378-422 | encoded winners of one topology can be paired |
| Breeding.ChildBitsOfGenes | FlappyBird/AIController.cpp:431-446 | the child string of two encoded winners is the encoding of the gene list it inherits |
| Breeding.ChildGenes | FlappyBird/AIController.cpp:431-546 | decoding the child of a pair gives the inherited gene list passed through `Mutate`, using exactly the draws `Mutate` makes |
| Breeding.BredChild | FlappyBird/AIController.cpp:427-547 | the child at `first * P + second` holds its inherited gene list passed through `Mutate` from the draw where the earlier children stopped |
| Breeding.CloneUnderQuietDraws | FlappyBird/AIController.cpp:431-432 | a winner paired with itself is cloned exactly while no mutation gate opens |
| Breeding.BreedPair | FlappyBird/AIController.cpp:429-546 | the loop body for one pair breeds what `breed` says, and the length check never logs |
| Breeding.BreedRowLoop | FlappyBird/AIController.cpp:428-547 | the inner loop produces `BreedRow` |
| Breeding.BreedAll | FlappyBird/AIController.cpp:427-547 | the two loops produce `BreedRows`: `P * P` children in lexicographic order of the pairs |
| Evolution.Scores | FlappyBird/AIController.cpp:359-360 | the score table holds every bird's score in bird order |
| Evolution.Winners | FlappyBird/AIController.cpp:351-371 | one winner per group, in group order, each the group's tournament winner |
| Evolution.WinnerInTable | FlappyBird/AIController.cpp:364 | a winner is a bird of the generation |
| Evolution.ParentGenes | FlappyBird/AIController.cpp:364-415 | each parent's gene list is its winner's network in traversal order |
| Evolution.ParentWidth | FlappyBird/AIController.cpp:378-422 | every parent gene list has `ParamCount` genes |
| Evolution.Groups | FlappyBird/AIController.cpp:308-332 | the dealt groups are `P` non-empty groups of scored birds |
| Evolution.DealtPlayable | FlappyBird/AIController.cpp:308-362 | dealing a complete generation gives groups every tournament can run on |
| Evolution.Selected | FlappyBird/AIController.cpp:351-364 | `P` winners, each a bird of the generation |
| Evolution.Champions | FlappyBird/AIController.cpp:364-415 | the parents' gene lists are the selected winners' parameters in traversal order, all of one length |
| Evolution.SelectedAreGroupMaxima | FlappyBird/AIController.cpp:353-362 | each selected parent is in its group, scores at least as much as every member, and is the first member with that score |
| Evolution.Unscored | FlappyBird/AIController.cpp:541-542 | the new chromosomes are the children in order, none with a score |
| Evolution.Breeder | FlappyBird/AIController.cpp:427-547 | the breeding step covers every pair and gives children of the run's topology |
| Evolution.BreederOfChampions | FlappyBird/AIController.cpp:378-547 | the breeding step decodes the crossovers of the encoded winners |
| Evolution.Children | FlappyBird/AIController.cpp:427-547 | a finished generation breeds exactly `BIRD_COUNT` children of the run's topology |
| Evolution.Breed | FlappyBird/AIController.cpp:374-549 | the new generation has the population size and topology of the old one, no scores and no seed |
| Evolution.BreedChild | FlappyBird/AIController.cpp:427-547 | child `first * P + second` holds the winner's genes (same group) or the alternation of the two winners', each passed through `Mutate` for the new generation number |
| Evolution.BreedClone | FlappyBird/AIController.cpp:431-432 | child `first * P + first` is an exact copy of winner `first` when no mutation gate opens during its decoding |
| Evolution.SelectParents | FlappyBird/AIController.cpp:351-371 | the tournament loop returns `Winners` |
| Evolution.EncodeParents | FlappyBird/AIController.cpp:378-422 | the encoding loop returns the winners' gene lists as text |
| Evolution.SelectAndEncode | FlappyBird/AIController.cpp:302-422 | the deal, the tournaments and the encoding give the encoded champions after `BIRD_COUNT` draws |
| Evolution.BreedChildren | FlappyBird/AIController.cpp:424-547 | the breeding loops give `Children` |
| Evolution.NextGeneration | FlappyBird/AIController.cpp:302-549 | the body of `CreateNewGeneration` after `srand` gives `Breed` and the draws of `Children` |
| Controller.FirstUnscoredFrom | FlappyBird/AIController.cpp:70-75 | the first bird from `c` on with no score; every bird in between has one |
| Controller.FirstUnscored | FlappyBird/AIController.cpp:70-75 | the first bird with no score, equal to `BIRD_COUNT` exactly when the generation is complete |
| Controller.FirstIncompleteFrom | FlappyBird/AIController.cpp:63-76 | the first file from `k` on with an unscored bird; every file in between is complete |
| Controller.FirstIncomplete | FlappyBird/AIController.cpp:63-76 | the first file with an unscored bird; every earlier file is complete |
| Controller.FindUnscored | FlappyBird/AIController.cpp:70-75 | the inner scan loop returns the first unscored bird, or -1 when every bird is scored |
| Controller.Scan | FlappyBird/AIController.cpp:60-76 | the scan stops at the first incomplete file and its first unscored bird, or at the last file with -1 when all are complete, or at -1 when there is no file |
| Controller.FreshNetworks | FlappyBird/AIController.cpp:81-130 | generation 0 has one network of the run's topology per bird |
| Controller.FreshInRange | FlappyBird/AIController.cpp:101-123 | every bootstrapped weight, hidden and output, is the float nearest to a value in `[-RANDOM_WIEGHT_MAX, RANDOM_WIEGHT_MAX]`, every bias one in `[-RANDOM_BIAS_MAX, RANDOM_BIAS_MAX]` |
| Controller.FreshDraws | FlappyBird/AIController.cpp:81-130 | bootstrapping takes exactly one draw per parameter of every network |
| Controller.Bootstrap | FlappyBird/AIController.cpp:81-130 | the bootstrap loops draw `FreshNetworks` |
| Controller.AppendNetworks | FlappyBird/AIController.cpp:146-147 | the evaluators already there are kept, then one evaluator per bird is pushed, built from its chromosome; the new ones have the run's topology |
| Controller.Saved | FlappyBird/AIController.cpp:552-557 | writing file `k` sets file `k` (new after the last, or overwritten) and keeps every other file |
| Controller.Seeded | FlappyBird/AIController.cpp:289-295 | the finished generation keeps its seed or records the clock's; scores, completeness and topology are unchanged |
| Controller.Record | FlappyBird/AIController.cpp:281-285 | the dead bird's entry gets its score; every other entry and the seed are unchanged |
| Controller.RecordScores | FlappyBird/AIController.cpp:281-285 | recording a score keeps the topology and scores exactly that one more bird |
| Controller.NewGeneration | FlappyBird/AIController.cpp:287-299 | the transition saves the seeded finished generation, moves to bird 0 of the next file number, saves a new generation of the run's topology there and keeps every other file |
| Controller.NewGenerationAtUnscoredBird | FlappyBird/AIController.cpp:287-299 | after the transition the run is at a bird with no score in the generation saved as the current file |
| Controller.NewGenerationReplays | FlappyBird/AIController.cpp:289-296 | started again from the saved, seeded generation, with any clock, the transition writes the same state |
| Controller.Resumed | FlappyBird/AIController.cpp:60-141 | resuming never loses a file: every file but the last is kept, and none disappears |
| Controller.ResumedAtUnscoredBird | FlappyBird/AIController.cpp:60-141 | wherever `Init` resumes, the run is at an unscored bird, every bird before it is scored, and the current generation is the one saved as the current file |
| Controller.NewGenerationOf | FlappyBird/AIController.cpp:287-549 | the seed, the save, the breeding and the second save give `NewGeneration` |
| Controller.ResumeOf | FlappyBird/AIController.cpp:60-141 | the scan and its three outcomes give `Resumed` |
| Controller.AIController.constructor | FlappyBird/AIController.cpp:12-16 | no game state, no pending flap, no networks, the C library's default seed |
| Controller.AIController.SetGameState | FlappyBird/AIController.h:17 | the game state is set |
| Controller.AIController.Update | FlappyBird/AIController.cpp:162-192 | with a game state and a live bird the flag is whether the bird's network answers +1; otherwise nothing changes |
| Controller.AIController.ShouldFlap | FlappyBird/AIController.cpp:273-279 | returns the pending flag and clears it |
| Controller.AIController.BirdDied | FlappyBird/AIController.cpp:281-285 | the current generation becomes `Record` of the bird and score |
| Controller.AIController.SaveCurrentGeneration | FlappyBird/AIController.cpp:552-557 | the current generation is written as file `generationNum` |
| Controller.AIController.CreateNewGeneration | FlappyBird/AIController.cpp:287-550 | the fields take the values of `NewGeneration` from the current generation |
| Controller.AIController.Init | FlappyBird/AIController.cpp:48-148 | the fields take the values of `Resumed`, at an unscored bird; one evaluator per bird is appended, so a fresh controller is ready for `update` |

## Left out

- File I/O is a field `files`. It holds the files `generation_0.json`,
  `generation_1.json`, ... that exist one after another. A file after a gap
  is never read by the scan, so it is not represented. JSON parsing and
  formatting are not modelled.
- The log file (`Log`) and console output are left out. They do not
  affect state.
- The `EXPORT` and `REPLAY` build variants are compile-time switches that
  are off in the modelled build. They are not modelled.
- Floating-point arithmetic is not modelled. A parameter is its 32-bit
  pattern; reading it as a number and rounding a sum back go through a
  `FloatModel` parameter. Sums in the evaluator are over the reals.
- Sensor geometry (`distanceToFloor`, `distanceToNearestPipes`,
  `distanceToCentreOfPipeGap`) reads sprite positions from the game. The
  readings are the `inputs` parameter of `Update`.
- `rand` and `srand` are a `Generator` parameter (a stream of draws per
  seed). `time(NULL)` is a `clock` parameter.
- The destructor is not modelled. It calls `CreateNewGeneration` even when
  the generation is incomplete, and then compares JSON values that are
  missing.
- Controller.AIController.CreateNewGeneration: requires a complete
  generation of the run's topology with a saved file number. `Init` calls
  it only that way; the destructor, which is not modelled, does not.
- Controller.AIController.BirdDied: requires an existing entry. In JSON a
  score for a missing entry would create an entry with only a score, which
  the model's generation cannot hold.
- Controller.AIController.Init: requires every file on disk to hold a
  generation of the run's topology. Files the program did not write are
  not modelled.
- Controller.AIController.Update: requires a ready controller and sensor
  readings no longer than `INPUT_COUNT`. Otherwise the program indexes past
  a weight list.
- The header that defines the program's constants is not part of this
  model. The model assumes that they satisfy `BIRD_COUNT = PARENT_COUNT *
  PARENT_COUNT`, give at least one hidden layer and give non-empty initial
  ranges (`Genome.Config.Valid`).
- Random.Uniform: assumes `RANDOM_WIEGHT_MAX` and `RANDOM_BIAS_MAX` are
  floating-point. With integer constants, `RAND_MAX / (max * 2)` would be
  an integer division, and a draw could land above `max`.
- Networks.Forward: stops at the network's own number of hidden layers
  rather than `HIDDEN_LAYER_COUNT`. The two agree for every network built
  from a chromosome of the run (`Networks.FromGenesShaped`).
- Controller.AIController.constructor: the program leaves
  `_currentGenerationNum` and `_currentChromosomeNum` unset until `Init`.
  The model starts them at -1.
- Controller.AIController.CreateNewGeneration and `Init` write their fields
  in one step. No other code runs in between, so the order of the writes
  within one call is not observable.
- Neurons.Calculate: requires at least as many weights as inputs, as
  reading `_weights[i]` past the end is undefined in the program.

/**
 * `Mutate`: each decoded parameter is perturbed with probability 1/100 by
 * an amount whose range shrinks as generations pass.
 */
module Mutation {
  import opened Random
  import opened Float32

  /**
   * The largest perturbation of generation `generation`: 1.0 less 0.01 per
   * generation, down to 0.01 from generation 100 on.
   */
  function MutationBound(generation: nat): (max: real)
    ensures 0.01 <= max <= 1.0
  {
    if generation < 100 then 1.0 - 0.01 * (generation as real) else 0.01
  }

  /** The bound never grows from one generation to a later one. */
  lemma MutationBoundAnnealed(earlier: nat, later: nat)
    requires earlier <= later
    ensures MutationBound(later) <= MutationBound(earlier)
  {
  }

  /** `rand() % 100 < 1`: the draw at `pos` lets a mutation happen. */
  predicate GateOpens(stream: Stream, pos: nat)
  {
    stream(pos) % 100 < 1
  }

  /** `input += amount` on the value a gene stands for. */
  function Shift(g: bv32, amount: real, fp: FloatModel): bv32
  {
    fp.round(fp.value(g) + amount)
  }

  /** `after` is `before` moved by some amount within [-max, max]. */
  ghost predicate Perturbed(before: bv32, after: bv32, max: real, fp: FloatModel)
  {
    exists amount: real :: -max <= amount <= max && after == Shift(before, amount, fp)
  }

  /**
   * One call of `Mutate` on gene `g`, with the stream positioned at `pos`.
   * The gate takes one draw; an open gate takes a second draw for the
   * amount. Returns the gene and the position of the next draw.
   */
  function Mutate(g: bv32, stream: Stream, pos: nat, generation: nat, fp: FloatModel): (r: (bv32, nat))
    ensures !GateOpens(stream, pos) ==> r == (g, pos + 1)
    ensures GateOpens(stream, pos) ==> r.1 == pos + 2 && Perturbed(g, r.0, MutationBound(generation), fp)
  {
    if GateOpens(stream, pos) then
      var amount := Uniform(stream(pos + 1), MutationBound(generation));
      (Shift(g, amount, fp), pos + 2)
    else
      (g, pos + 1)
  }

  /** `Mutate` applied to each gene of `gs` in turn, threading the stream position. */
  function MutateAll(gs: seq<bv32>, stream: Stream, pos: nat, generation: nat, fp: FloatModel): (r: (seq<bv32>, nat))
    ensures |r.0| == |gs|
    ensures pos + |gs| <= r.1 <= pos + 2 * |gs|
    decreases |gs|
  {
    if |gs| == 0 then ([], pos)
    else
      var prefix := MutateAll(gs[..|gs| - 1], stream, pos, generation, fp);
      var last := Mutate(gs[|gs| - 1], stream, prefix.1, generation, fp);
      (prefix.0 + [last.0], last.1)
  }

  /** No gate among the draws `from .. to-1` opens. */
  predicate Quiet(stream: Stream, from: nat, to: nat)
  {
    forall i :: from <= i < to ==> !GateOpens(stream, i)
  }

  /** While every gate stays shut, mutation is the identity and takes one draw per gene. */
  lemma {:induction false} MutateAllQuiet(gs: seq<bv32>, stream: Stream, pos: nat, generation: nat, fp: FloatModel)
    requires Quiet(stream, pos, pos + |gs|)
    ensures MutateAll(gs, stream, pos, generation, fp) == (gs, pos + |gs|)
    decreases |gs|
  {
    if |gs| > 0 {
      var last := |gs| - 1;
      MutateAllQuiet(gs[..last], stream, pos, generation, fp);
      QuietLast(gs, stream, pos, generation, fp);
    }
  }

  /** A shut gate for the last gene extends an unchanged prefix by that gene, unchanged. */
  lemma QuietLast(gs: seq<bv32>, stream: Stream, pos: nat, generation: nat, fp: FloatModel)
    requires |gs| > 0 && Quiet(stream, pos, pos + |gs|)
    requires MutateAll(gs[..|gs| - 1], stream, pos, generation, fp) == (gs[..|gs| - 1], pos + |gs| - 1)
    ensures MutateAll(gs, stream, pos, generation, fp) == (gs, pos + |gs|)
  {
    var last := |gs| - 1;
    assert !GateOpens(stream, pos + last);
    var step := Mutate(gs[last], stream, pos + last, generation, fp);
    assert step == (gs[last], pos + |gs|);
    LastRejoined(gs);
  }

  /** A non-empty list is its prefix followed by its last element. */
  lemma LastRejoined(gs: seq<bv32>)
    requires |gs| > 0
    ensures gs[..|gs| - 1] + [gs[|gs| - 1]] == gs
  {
  }

  /** Mutating one more gene continues from where the others stopped. */
  lemma MutateAllSnoc(gs: seq<bv32>, g: bv32, stream: Stream, pos: nat, generation: nat, fp: FloatModel)
    ensures MutateAll(gs + [g], stream, pos, generation, fp) ==
      var prefix := MutateAll(gs, stream, pos, generation, fp);
      var last := Mutate(g, stream, prefix.1, generation, fp);
      (prefix.0 + [last.0], last.1)
  {
    assert (gs + [g])[..|gs|] == gs;
  }

  /** Mutating a concatenation mutates the first part, then the second from where the first stopped. */
  lemma {:induction false} MutateAllAppend(a: seq<bv32>, b: seq<bv32>, stream: Stream, pos: nat, generation: nat, fp: FloatModel)
    ensures MutateAll(a + b, stream, pos, generation, fp) ==
      var first := MutateAll(a, stream, pos, generation, fp);
      var second := MutateAll(b, stream, first.1, generation, fp);
      (first.0 + second.0, second.1)
    decreases |b|
  {
    var first := MutateAll(a, stream, pos, generation, fp);
    if |b| == 0 {
      assert a + b == a;
      assert first.0 + [] == first.0;
    } else {
      var last := |b| - 1;
      assert a + b == (a + b[..last]) + [b[last]];
      assert b == b[..last] + [b[last]];
      MutateAllAppend(a, b[..last], stream, pos, generation, fp);
      MutateAllSnoc(a + b[..last], b[last], stream, pos, generation, fp);
      MutateAllSnoc(b[..last], b[last], stream, first.1, generation, fp);
      var inner := MutateAll(b[..last], stream, first.1, generation, fp);
      var m := Mutate(b[last], stream, inner.1, generation, fp);
      assert first.0 + inner.0 + [m.0] == first.0 + (inner.0 + [m.0]);
    }
  }

  /** Each gene is either kept or moved by at most the generation's bound, independently of the others. */
  lemma {:induction false} MutateAllBounded(gs: seq<bv32>, stream: Stream, pos: nat, generation: nat, fp: FloatModel)
    ensures var r := MutateAll(gs, stream, pos, generation, fp).0;
      forall i :: 0 <= i < |gs| ==>
        r[i] == gs[i] || Perturbed(gs[i], r[i], MutationBound(generation), fp)
    decreases |gs|
  {
    if |gs| > 0 {
      var last := |gs| - 1;
      MutateAllBounded(gs[..last], stream, pos, generation, fp);
      var prefix := MutateAll(gs[..last], stream, pos, generation, fp);
      var m := Mutate(gs[last], stream, prefix.1, generation, fp);
      var r := MutateAll(gs, stream, pos, generation, fp).0;
      assert r == prefix.0 + [m.0];
      forall i | 0 <= i < last
        ensures r[i] == prefix.0[i] && gs[i] == gs[..last][i]
      {
      }
    }
  }
}

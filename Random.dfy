/**
 * The C library's pseudo-random generator, made explicit.
 *
 * `srand(seed)` selects a stream and every later `rand()` returns the next
 * draw of it. The concrete generator is foreign code, so a `Generator` is a
 * parameter: for each seed, the sequence of values `rand()` returns.
 */
module Random {
  /** The value assumed for `RAND_MAX`, that of the Microsoft C runtime; the header defining it is not part of this model. */
  const RandMax: int := 0x7FFF

  /** One result of `rand()`. */
  type Draw = d: int | 0 <= d <= RandMax

  /** An `unsigned int` seed. */
  type Seed = s: int | 0 <= s < 0x1_0000_0000

  /** The k-th value `rand()` returns after the last `srand`. */
  type Stream = nat -> Draw

  type Generator = Seed -> Stream

  /** Before any `srand`, the C library behaves as if `srand(1)` had been called. */
  const DefaultSeed: Seed := 1

  /** `unsigned int(time(NULL))`: the clock truncated to 32 bits. */
  function SeedFromClock(clock: nat): Seed
  {
    clock % 0x1_0000_0000
  }

  /**
   * `rand() / (RAND_MAX / (max * 2)) - max`, the expression used both for
   * the initial weights and biases and for the mutation amount, over the
   * reals: it always lies in [-max, max].
   */
  function Uniform(d: Draw, max: real): (r: real)
    requires max > 0.0
    ensures -max <= r <= max
  {
    var scale := (RandMax as real) / (max * 2.0);
    assert (d as real) / scale == (d as real) * (max * 2.0) / (RandMax as real);
    (d as real) / scale - max
  }
}

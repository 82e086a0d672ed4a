/**
 * How the model sees IEEE 754 binary32 values (section 3.4 of IEEE 754-2019).
 *
 * A parameter is stored as its 32-bit pattern, which the genetic algorithm
 * copies and recombines without looking inside. The two places where the
 * program does floating-point arithmetic go through this interpretation:
 * `value` reads a pattern as a number, `round` stores a number back into
 * the nearest pattern. Rounding itself is not modelled.
 */
module Float32 {
  datatype FloatModel = FloatModel(value: bv32 -> real, round: real -> bv32)
}

/** The values an `f32` can take where the crate produces or tests for
    something other than a finite number. */
module Floats {

  /** An f32 as far as the core cares: a finite value, NaN, or an infinity
      of either sign. */
  datatype Float = Finite(value: real) | NaN | Infinity(negative: bool) {

    predicate IsNan() {
      NaN?
    }

    predicate IsInfinite() {
      Infinity?
    }
  }
}

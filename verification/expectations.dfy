/** The tolerance the library's own expectations use on computed numbers. */
module Expectations {

  /** `toBeCloseTo` with its default precision of two digits: a difference below 0.005. */
  predicate CloseTo(x: real, y: real) {
    -0.005 < x - y < 0.005
  }
}

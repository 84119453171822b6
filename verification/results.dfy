/** Failure-compatible result type for the conditions the library raises as JavaScript exceptions. */
module Results {

  /** The exceptions the core can throw. */
  datatype Error =
    | UnsupportedExponent             // `pow` called with a non-number exponent
    | UnsupportedActivation(tag: string)
    | UndefinedOperand                // an operand read past the end of an input list (`new Value(undefined)`)
    | NotAList                        // `.map` applied to something that is not an array
    | NoMatch                         // `String.prototype.match` returned null and its result was used
    | InvalidArrayLength              // `Array(n)` with `n` past 2^32 - 1 (a `RangeError`)
    | MissingEntry                    // a property read on `undefined` (an index past the end of a list)

  datatype Result<+T> = Ok(value: T) | Err(error: Error) {

    predicate IsFailure() {
      Err?
    }

    function PropagateFailure<U>(): Result<U>
      requires Err?
    {
      Err(error)
    }

    function Extract(): T
      requires Ok?
    {
      value
    }
  }
}

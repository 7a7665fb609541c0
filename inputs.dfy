/** The values the form inputs hand to a schema. */
module Inputs {

  /** An optional field: `None` when the value is `undefined`. */
  datatype Option<T> = None | Some(value: T)

  /** What a number input registered with `valueAsNumber` yields: nothing at
      all (`undefined`), `NaN` (an empty or unparsable field), or a finite
      number, kept exactly as a real. */
  datatype NumInput = Absent | NotANumber | Num(value: real)

  /** `Number.isInteger` on a finite number. */
  predicate IsInteger(x: real) {
    x == x.Floor as real
  }
}

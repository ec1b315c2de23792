/** Failure-carrying results for the operations of the curve engine and its value
    classes. Every `throw` of the JavaScript source becomes a `Failure` whose
    `Error` names the kind of violation. */
module Wrappers {

  /** The kinds of error the modelled code raises. */
  datatype Error =
    | DimensionError      // a matrix built from an empty or jagged array
    | DimensionMismatch   // matrix add / product on incompatible shapes
    | InvalidArgument     // degree above point count, too few points, bad parameters
    | RangeError          // a curve parameter or a colour component out of range
    | IndexError          // a colour index outside the colour map
    | TypeError           // a property read on `undefined` (empty control-point list)

  datatype Result<+T> = Success(value: T) | Failure(error: Error)

  /** The outcome of an operation that returns nothing but may throw. */
  datatype Outcome = Pass | Fail(error: Error)

  /** `None` stands for the JavaScript value `undefined`. */
  datatype Option<+T> = None | Some(value: T)
}

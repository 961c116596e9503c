/** Outcomes of validating an archive. */
module Errors {

  /** The ways a buffer can fail validation. */
  datatype Error =
    | OutOfBounds                       // a resolved position lies outside [0, length]
    | Overrun                           // a claimed range runs past the end of the buffer
    | Misaligned                        // a claimed range starts at a badly aligned position
    | InvalidDiscriminant(tag: int)     // a tag byte names no variant
    | OverlappingClaim                  // a range intersects an already committed range
    | CyclicClaim                       // a range intersects a range that is still being validated
    | Nested(inner: Error)              // a custom rule wrapping the error of a nested check

  /** The result of a check that produces nothing but success or the first error. */
  datatype Outcome = Pass | Fail(error: Error)

  /** The result of a check that produces a value on success. */
  datatype Result<T> = Ok(value: T) | Err(error: Error)
}

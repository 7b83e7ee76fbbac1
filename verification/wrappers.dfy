/** Failure-compatible result types and the exceptions the detectors can raise. */
module Wrappers {

  datatype Option<+T> = None | Some(value: T)

  /** The exception kinds the modelled code throws, named after their .NET / OpenCV origin. */
  datatype Error =
    | ArgumentNull        // ArgumentNullException: null image bytes, null or empty model path
    | ArgumentOutOfRange  // ArgumentOutOfRangeException: a checked top-n request out of range
    | IndexOutOfRange     // a tensor read outside the tensor's shape
    | KeyNotFound         // a label index the label table does not hold
    | EmptyImage          // OpenCV refusing to resize an empty frame or to an empty size

  datatype Result<+T> = Success(value: T) | Failure(error: Error) {
    predicate IsFailure() { Failure? }

    function PropagateFailure<U>(): Result<U>
      requires Failure?
    {
      Failure(error)
    }

    function Extract(): T
      requires Success?
    {
      value
    }
  }
}

/** Failure-carrying datatypes shared by the model, and the kinds of error
    the extraction script raises on a single video. */
module Wrappers {

  datatype Option<+T> = None | Some(value: T)

  datatype Result<+R, +E> = Success(value: R) | Failure(error: E) {

    predicate IsFailure() {
      Failure?
    }

    function PropagateFailure<U>(): Result<U, E>
      requires Failure?
    {
      Failure(error)
    }

    function Extract(): R
      requires Success?
    {
      value
    }
  }

  /** The exceptions that end the processing of one video. The script only
      keeps their text; the model keeps which raise produced it. */
  datatype Error =
    | CannotOpen                 // the decoder could not open the file
    | NoFrames                   // the container reports zero frames
    | NoFramesRead               // every sampled frame failed to decode
    | EmptyCapture               // the hook captured an empty list, so indexing [0] fails
    | PoolRejected               // 3-D average pooling was given a tensor that is not 4-D or 5-D
    | FlattenRejected            // flattening from axis 1 was given a tensor of fewer than 2 dimensions
    | NetworkRaised(code: nat)   // the opaque network raised during its forward pass
    | WriteRejected              // the keyed store refused the feature vector
}

/** Python's `None` and the ValueErrors (and OpenCV errors) raised by the rectification core. */
module Results {

  /** A value that may be Python's `None`. */
  datatype Option<+T> = None | Some(value: T)

  /** The distinct failures the core can raise, one per message in the source. */
  datatype Error =
    | ImageIsNull       // "Image is null"
    | NoContour         // `max()` over an empty contour list
    | InvalidContour    // "Failed to detect a quadrilateral. Invalid contour."
    | NoCardDetected    // "Homography failed: No card detected."
    | OpenCvFailure     // an error raised inside the perspective warp

  /** Either a value or the error that was raised instead; usable with `:-`. */
  datatype Result<+T> = Ok(value: T) | Err(error: Error) {

    predicate IsFailure() {
      Err?
    }

    function PropagateFailure<U>(): Result<U>
      requires Err?
    {
      Err(error)
    }

    function Extract(): T
      requires Ok?
    {
      value
    }
  }
}

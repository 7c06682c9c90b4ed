/** Optional values and the two ways a planning call can fail. */
module Outcome {

  /** `str | None` in the catalog rows (a dish's category may be absent). */
  datatype Option<T> = None | Some(value: T)

  /** The `ValueError`s raised by the selectors. */
  datatype Error =
    | SelectionExhausted      // weekly: some day slot had no admissible dish
    | InsufficientCandidates  // daily: fewer filtered dishes than the sample size

  /** A planning call either returns its value or raises; it never returns a partial value. */
  datatype Result<T> = Ok(value: T) | Err(error: Error)
}

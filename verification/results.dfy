/** Failure-carrying values shared by every module of the model.

    `Result` plays the part of the service's `Result<T>` and supports `:-`,
    which is how the model writes Rust's `?` operator. */
module Results {

  /** Either the value a step produced or the error that stopped it. */
  datatype Result<+T, +E> = Ok(value: T) | Err(error: E) {

    predicate IsFailure() {
      Err?
    }

    function PropagateFailure<U>(): Result<U, E>
      requires Err?
    {
      Err(error)
    }

    function Extract(): T
      requires Ok?
    {
      value
    }
  }

  /** An optional value, as a protobuf `optional` field or Rust's `Option`. */
  datatype Option<+T> = None | Some(value: T) {

    /** Rust's `unwrap_or`: the carried value, or `default` when there is none. */
    function UnwrapOr(default: T): T {
      match this
      case Some(v) => v
      case None => default
    }
  }

  /** `e` is the error of the first failed step in `steps`: every earlier
      step succeeded. */
  ghost predicate FirstErrorIs<T, E>(steps: seq<Result<T, E>>, e: E) {
    exists k :: 0 <= k < |steps| && steps[k] == Err(e) && OkBefore(steps, k)
  }

  /** Every step in `steps` before position `k` succeeded. */
  ghost predicate OkBefore<T, E>(steps: seq<Result<T, E>>, k: int) {
    forall j :: 0 <= j < k && j < |steps| ==> steps[j].Ok?
  }
}

/** Optional values and fallible results, as the source uses `Option` and
    `anyhow::Result`. */
module Wrappers {

  datatype Option<+T> = None | Some(value: T) {
    /** The value, or `default` when absent (Rust's `unwrap_or`). */
    function GetOr(default: T): T {
      match this
      case Some(v) => v
      case None => default
    }

    /** The value as a list of at most one element. */
    function ToSeq(): seq<T> {
      match this
      case Some(v) => [v]
      case None => []
    }
  }

  /** A parse outcome: a value, or the message of the error that aborted it. */
  datatype Result<+T> = Ok(value: T) | Err(error: string)
}

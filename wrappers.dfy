/** Optional values and results, as the Rust and JavaScript sources use them. */
module Wrappers {

  /** Rust's `Option`, and JavaScript's `null`-or-value. */
  datatype Option<+T> = None | Some(value: T) {
    function GetOr(default: T): T {
      match this
      case Some(v) => v
      case None => default
    }
  }

  /** Rust's `Result`; for a Tauri command, `Failure` makes the front end's `invoke` reject. */
  datatype Result<+T, +E> = Success(value: T) | Failure(error: E)
}

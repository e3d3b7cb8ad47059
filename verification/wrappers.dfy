/** Shared types. */
module Wrappers {
  datatype Option<+T> = None | Some(value: T)

  /** The outcome of something that may fail, but not when all is `calm`. */
  method Try(calm: bool) returns (ok: bool)
    ensures calm ==> ok
  {
    ok := *;
    ok := ok || calm;
  }
}

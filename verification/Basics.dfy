/** Small things that every component needs. */
module Basics {

  datatype Option<T> = None | Some(value: T)

  /** Truncation towards zero, as `int()` does on a float. */
  function Trunc(x: real): int { if 0.0 <= x then x.Floor else -((-x).Floor) }
}

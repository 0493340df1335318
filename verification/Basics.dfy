/** Types used throughout. */
module Basics {
  datatype Option<+T> = None | Some(value: T)

  type byte = x: int | 0 <= x < 256

  /** Pipes are told apart by a number. */
  type Pipe = nat
}

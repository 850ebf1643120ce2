/** Small shared value types. */
module Wrappers {

  /** An optional value: what the C++ code expresses with a null,
      a missing map entry or an "is set" flag. */
  datatype Option<+T> = None | Some(value: T)

  /** A 16-bit signed sample, C++'s short. */
  type Short = x: int | -0x8000 <= x < 0x8000
}

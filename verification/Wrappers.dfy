/** Types that every part of the model uses: a value that may be absent, and a byte. */
module Wrappers {
  datatype Option<+T> = None | Some(value: T)

  type Byte = b: nat | b < 256
}

/** Go's `byte`: an unsigned 8-bit integer. */
module Bytes {
  type Byte = x: int | 0 <= x < 256
}

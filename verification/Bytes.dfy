/** Bytes as the integers they denote. */
module Bytes {
  type Byte = x: int | 0 <= x < 256
}

/** Octets, as the byte buffers of every binding hold them. */
module Bytes {
  type Byte = b: int | 0 <= b < 256
}

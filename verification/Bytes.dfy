/** The octets of packets and windows. */
module Bytes {
  type Byte = x: int | 0 <= x < 256
}

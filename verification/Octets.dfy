/** Bytes of a network packet as numbers. */
module Octets {
  newtype byte = x: int | 0 <= x < 256
}

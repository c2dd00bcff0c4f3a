/** Bytes, the unit of every buffer and text in the project. */
module Bytes {
  type byte = x: int | 0 <= x < 256
}

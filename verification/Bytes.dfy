/** Bytes as the wire and the terminal see them. */
module Bytes {
  newtype byte = i: int | 0 <= i < 256

  type Bytes = seq<byte>
}

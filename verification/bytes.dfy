/** Byte strings, shared by the element model and the session API. */
module Bytes {

  /** One octet. */
  newtype byte = x: int | 0 <= x < 256

  /** Rust's `Vec<u8>` / protobuf `bytes`. */
  type bytes = seq<byte>
}

/** Bytes, for the encodings. */
module Bytes {

  type Byte = b: nat | b < 256
}

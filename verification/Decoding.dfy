/** Outcomes of reading bytes back, shared by the log and the tree nodes. */
module Decoding {
  datatype Result<+T> = Ok(value: T) | Eof | Corruption
}

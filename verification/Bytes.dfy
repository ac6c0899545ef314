/** Bytes, as stored in files and sent over sockets. */
module Bytes {

  type Byte = b: int | 0 <= b < 256

  datatype Option<+T> = None | Some(value: T)
}

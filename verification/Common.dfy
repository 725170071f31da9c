/** Values shared by the modules of this project. */
module Common {

  /** A value that may be absent: a SQL NULL, a nil pointer, a failed call. */
  datatype Option<+T> = None | Some(value: T)

  type byte = bv8

  type Bytes = seq<byte>
}

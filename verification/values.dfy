/** Values every module needs. */
module Values {
  datatype Option<+A> = None | Some(value: A)

  type Byte = x: int | 0 <= x < 256
}

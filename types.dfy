/** Machine-level value types shared by the device model. */
module Types {

  /** One octet of a frame or packet. */
  type Byte = bv8

  /** The modulus of C's 32-bit `unsigned int` arithmetic. */
  const Word: int := 0x1_0000_0000

  /** A C `unsigned int`: ports, sizes, offsets and register values. */
  type U32 = x: int | 0 <= x < 0x1_0000_0000

  /** A value or its absence (a NULL pointer in the source). */
  datatype Option<T> = None | Some(value: T)
}

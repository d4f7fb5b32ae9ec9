/**
 * Guest port I/O decode of the virtio-net PCI device: a trapped `in` or `out`
 * on a port of the device's I/O window becomes a register access of the ring
 * emulation at offset `port - iobase`, computed in 32-bit unsigned arithmetic.
 * Access width and written value are passed on unchanged.
 */
module PortIo {
  import opened Types

  /** A register access as forwarded to the ring emulation. */
  datatype RegAccess =
    | RegRead(offset: U32, size: U32)
    | RegWrite(offset: U32, size: U32, value: U32)

  /** `port - iobase` as C's unsigned subtraction: wraps modulo 2^32. */
  function Offset(iobase: U32, port: U32): (offset: U32)
    ensures (iobase + offset) % Word == port
  {
    var d := port - iobase;
    assert d < 0 ==> d % Word == d + Word;
    d % Word
  }

  /** A guest port-in: a register read of `size` bytes at the port's offset from the base. */
  function IoIn(iobase: U32, port: U32, size: U32): (a: RegAccess)
    ensures a.RegRead? && a.size == size
    ensures (iobase + a.offset) % Word == port
  {
    RegRead(Offset(iobase, port), size)
  }

  /** A guest port-out: a register write of `value` with `size` bytes at the port's offset from the base. */
  function IoOut(iobase: U32, port: U32, size: U32, value: U32): (a: RegAccess)
    ensures a.RegWrite? && a.size == size && a.value == value
    ensures (iobase + a.offset) % Word == port
  {
    RegWrite(Offset(iobase, port), size, value)
  }

  /**
   * For a window of `width` ports that does not wrap past 2^32, a port lies in
   * the window exactly when its decoded offset is below `width`; inside the
   * window the offset is the plain difference. Ports below the base wrap to
   * offsets of at least 2^32 - iobase.
   */
  lemma DecodeWindow(iobase: U32, width: nat, port: U32)
    requires iobase + width <= Word
    ensures iobase <= port < iobase + width <==> Offset(iobase, port) < width
    ensures iobase <= port ==> Offset(iobase, port) == port - iobase
  {
  }
}

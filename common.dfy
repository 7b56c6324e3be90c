/** Types shared by the codec, the transport and the session: bytes, the
    failures the Python code raises as exceptions, and a result wrapper. */
module Common {

  /** A value held in one octet, as the elements of a Python `bytes` object. */
  type Byte = b: int | 0 <= b < 256

  /** The exceptions the modelled code can raise, by meaning rather than by class. */
  datatype Error =
    | HeightOutOfRange   // int.to_bytes(2, 'big') raises OverflowError
    | PortNotOpen        // writing to or reading from a closed serial port
    | ShortResponse      // res[4] or res[5] past the end of the bytes read: IndexError
    | CloseFailed        // the serial port raised while closing
    | NoPedestal         // attribute access on a pedestal that is None

  datatype Result<T> = Ok(value: T) | Err(error: Error)
}

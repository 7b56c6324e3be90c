/** The serial port as the pedestal code uses it: an open/closed flag, the log
    of every byte written to the device, and the bytes the device has sent
    that are still waiting to be read.  The serial driver itself, and the
    moments at which the device answers, are not modelled: `Deliver` stands
    for bytes arriving from the device. */
module Transport {
  import opened Common

  datatype Parity = ParityNone | ParityEven | ParityOdd | ParityMark | ParitySpace

  class Port {
    const name: string
    const baudRate: int
    const dataBits: int
    const stopBits: int
    const parity: Parity

    var isOpen: bool
    var written: seq<Byte>   // everything written so far, in order
    var inbound: seq<Byte>   // received and not yet read
    ghost var closeCalls: nat

    /** `serial.Serial(port, baudrate, bytesize, stopbits, parity)` once the
        driver has opened the port; a failed open is decided by the caller. */
    constructor Open(name: string, baudRate: int, dataBits: int, stopBits: int, parity: Parity)
      ensures this.name == name && this.baudRate == baudRate && this.dataBits == dataBits
      ensures this.stopBits == stopBits && this.parity == parity
      ensures isOpen && written == [] && inbound == [] && closeCalls == 0
    {
      this.name, this.baudRate, this.dataBits := name, baudRate, dataBits;
      this.stopBits, this.parity := stopBits, parity;
      isOpen, written, inbound := true, [], [];
      closeCalls := 0;
    }

    /** `ser.write(data)`: the bytes go out unchanged and in order; a closed
        port raises instead. */
    method Write(data: seq<Byte>) returns (r: Result<()>)
      modifies this`written
      ensures r == if isOpen then Ok(()) else Err(PortNotOpen)
      ensures written == if isOpen then old(written) + data else old(written)
    {
      if isOpen {
        written := written + data;
        r := Ok(());
      } else {
        r := Err(PortNotOpen);
      }
    }

    /** `ser.in_waiting`: how many received bytes are buffered. */
    method InWaiting() returns (r: Result<nat>)
      ensures r.Ok? <==> isOpen
      ensures r.Err? ==> r.error == PortNotOpen
      ensures r.Ok? ==> r.value == |inbound|
    {
      if isOpen {
        r := Ok(|inbound|);
      } else {
        r := Err(PortNotOpen);
      }
    }

    /** `ser.read(size)`: takes up to `size` buffered bytes, oldest first. */
    method Read(size: nat) returns (r: Result<seq<Byte>>)
      modifies this`inbound
      ensures r.Ok? <==> isOpen
      ensures r.Err? ==> r.error == PortNotOpen && inbound == old(inbound)
      ensures r.Ok? ==> old(inbound) == r.value + inbound
      ensures r.Ok? ==> |r.value| == if size < |old(inbound)| then size else |old(inbound)|
    {
      if isOpen {
        var n := if size < |inbound| then size else |inbound|;
        r := Ok(inbound[..n]);
        inbound := inbound[n..];
      } else {
        r := Err(PortNotOpen);
      }
    }

    /** `ser.close()`.  Whether the driver raises is decided by the caller
        through `succeeds`; a port whose close raised is left as it was. */
    method Close(succeeds: bool) returns (r: Result<()>)
      modifies this`isOpen, this`closeCalls
      ensures closeCalls == old(closeCalls) + 1
      ensures r == if succeeds then Ok(()) else Err(CloseFailed)
      ensures isOpen == (old(isOpen) && !succeeds)
    {
      closeCalls := closeCalls + 1;
      if succeeds {
        isOpen := false;
        r := Ok(());
      } else {
        r := Err(CloseFailed);
      }
    }

    /** Bytes arriving from the device, appended to the input buffer. */
    method Deliver(data: seq<Byte>)
      modifies this`inbound
      ensures inbound == old(inbound) + data
    {
      inbound := inbound + data;
    }
  }
}

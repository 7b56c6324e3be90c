/** The `Pedestal` class: one serial port and the commands written to it.
    Every command method builds its frame and hands it to `SendCommand`;
    `Read` drains whatever the device has sent and decodes a height. */
module Pedestel {
  import opened Common
  import opened Frames
  import opened Transport

  class Pedestal {
    const ser: Port

    /** Opens the serial port with the given settings (the failing open is
        modelled by the caller, which then creates no pedestal). */
    constructor (serialPort: string, baudRate: int, dataBits: int, stopBits: int, parity: Parity)
      ensures fresh(ser)
      ensures ser.name == serialPort && ser.baudRate == baudRate && ser.dataBits == dataBits
      ensures ser.stopBits == stopBits && ser.parity == parity
      ensures ser.isOpen && ser.written == [] && ser.inbound == [] && ser.closeCalls == 0
    {
      ser := new Port.Open(serialPort, baudRate, dataBits, stopBits, parity);
    }

    /** Writes the command bytes to the port unchanged and in order, and
        nothing else. */
    method SendCommand(command: seq<Byte>) returns (r: Result<()>)
      modifies ser`written
      ensures r == if ser.isOpen then Ok(()) else Err(PortNotOpen)
      ensures ser.written == if ser.isOpen then old(ser.written) + command else old(ser.written)
    {
      r := ser.Write(command);
    }

    method MoveUp() returns (r: Result<()>)
      modifies ser`written
      ensures r == if ser.isOpen then Ok(()) else Err(PortNotOpen)
      ensures ser.written == old(ser.written) + if ser.isOpen then [0xF1, 0xF1, 0x01, 0x00, 0x01, 0x7E] else []
    {
      r := SendCommand(FixedFrame(MoveUpId));
    }

    method MoveDown() returns (r: Result<()>)
      modifies ser`written
      ensures r == if ser.isOpen then Ok(()) else Err(PortNotOpen)
      ensures ser.written == old(ser.written) + if ser.isOpen then [0xF1, 0xF1, 0x02, 0x00, 0x02, 0x7E] else []
    {
      r := SendCommand(FixedFrame(MoveDownId));
    }

    method Release() returns (r: Result<()>)
      modifies ser`written
      ensures r == if ser.isOpen then Ok(()) else Err(PortNotOpen)
      ensures ser.written == old(ser.written) + if ser.isOpen then [0xF1, 0xF1, 0x0A, 0x00, 0x0A, 0x7E] else []
    {
      r := SendCommand(FixedFrame(ReleaseId));
    }

    method QuickStop() returns (r: Result<()>)
      modifies ser`written
      ensures r == if ser.isOpen then Ok(()) else Err(PortNotOpen)
      ensures ser.written == old(ser.written) + if ser.isOpen then [0xF1, 0xF1, 0x2B, 0x00, 0x2B, 0x7E] else []
    {
      r := SendCommand(FixedFrame(QuickStopId));
    }

    method RequestHeight() returns (r: Result<()>)
      modifies ser`written
      ensures r == if ser.isOpen then Ok(()) else Err(PortNotOpen)
      ensures ser.written == old(ser.written) + if ser.isOpen then [0xF1, 0xF1, 0x0E, 0x00, 0x0E, 0x7E] else []
    {
      r := SendCommand(FixedFrame(RequestHeightId));
    }

    /** `moveToHeight_MM`: a height outside [0, 65535] raises before anything
        is written; otherwise the height frame is sent. */
    method MoveToHeight(heightMm: int) returns (r: Result<()>)
      modifies ser`written
      ensures !(0 <= heightMm < 0x1_0000) ==> r == Err(HeightOutOfRange) && ser.written == old(ser.written)
      ensures 0 <= heightMm < 0x1_0000 ==>
                r == (if ser.isOpen then Ok(()) else Err(PortNotOpen)) &&
                ser.written == old(ser.written) + if ser.isOpen then HeightFrame(heightMm).value else []
    {
      var frame := HeightFrame(heightMm);
      match frame
      case Err(e) =>
        r := Err(e);
      case Ok(command) =>
        r := SendCommand(command);
    }

    /** `read`: if bytes are waiting, takes all of them and decodes the height
        from bytes 4 and 5; with nothing waiting there is no reading.  The
        source prints the height; here it is returned. */
    method Read() returns (r: Result<Reading>)
      modifies ser`inbound
      ensures !ser.isOpen ==> r == Err(PortNotOpen) && ser.inbound == old(ser.inbound)
      ensures ser.isOpen ==> r == Poll(old(ser.inbound)) && ser.inbound == []
    {
      var waiting := ser.InWaiting();
      if waiting.Err? {
        r := Err(waiting.error);
      } else if waiting.value > 0 {
        // The source asks for `in_waiting` a second time here; no byte can
        // arrive between the two questions in this model, so the count is reused.
        var res := ser.Read(waiting.value);
        if res.Err? {
          r := Err(res.error);
        } else {
          var height := DecodeHeight(res.value);
          r := if height.Ok? then Ok(Height(height.value)) else Err(height.error);
        }
      } else {
        r := Ok(NoData);
      }
    }

    /** `close_serial`; `succeeds` says whether the driver's close raises. */
    method CloseSerial(succeeds: bool) returns (r: Result<()>)
      modifies ser`isOpen, ser`closeCalls
      ensures ser.closeCalls == old(ser.closeCalls) + 1
      ensures r == if succeeds then Ok(()) else Err(CloseFailed)
      ensures ser.isOpen == (old(ser.isOpen) && !succeeds)
    {
      r := ser.Close(succeeds);
    }
  }
}

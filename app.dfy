/** The device session of the web application: the `pedestal` field is either
    null (Unconnected) or a `Pedestal` whose port is open (Connected).  The
    web server, the socket events and the device listing around it are not
    modelled; their handlers call the three methods below. */
module App {
  import opened Common
  import opened Frames
  import opened Transport
  import opened Pedestel

  const BaudRate := 9600
  const DataBits := 8
  const StopBits := 1
  const ResetHeightMm := 300

  /** The dictionary returned to the web client: status "success" or "error". */
  datatype Response = Response(status: string, message: string)

  /** Whether the serial driver opens the requested port, and if not, the text
      of the exception it raises. */
  datatype OpenOutcome = Opened | OpenFailed(reason: string)

  datatype SessionState = Unconnected | Connected

  datatype Event = Connect(opens: bool) | Disconnect | Dispatch

  /** The session's transitions: a connect only ever adds a pedestal when
      there is none and the port opens; a disconnect always ends Unconnected;
      dispatching a message never changes the state. */
  function Next(s: SessionState, e: Event): SessionState
  {
    match e
    case Connect(opens) => if s == Connected || opens then Connected else Unconnected
    case Disconnect => Unconnected
    case Dispatch => s
  }

  /** Every state has an outcome for every event, and two disconnects in a row
      end where one does. */
  lemma DisconnectIdempotent(s: SessionState)
    ensures Next(Next(s, Disconnect), Disconnect) == Next(s, Disconnect) == Unconnected
  {
  }

  /** Only a connect whose port opens leaves Unconnected. */
  lemma LeavingUnconnected(e: Event)
    ensures Next(Unconnected, e) == Connected <==> e == Connect(true)
  {
  }

  /** The frame `handle_send_data` has the pedestal write for a message:
      "up", "down" and "reset" (a move to 300 mm); any other message writes
      nothing.  Every frame it writes is well formed. */
  function DispatchFrame(message: string): (r: seq<Byte>)
    ensures r == [] <==> message !in {"up", "down", "reset"}
    ensures r != [] ==> |r| >= 6 && WellFormedFrame(r, r[2], r[4..|r| - 2])
  {
    if message == "up" then
      FixedFrameWellFormed(MoveUpId);
      FixedFrame(MoveUpId)
    else if message == "down" then
      FixedFrameWellFormed(MoveDownId);
      FixedFrame(MoveDownId)
    else if message == "reset" then
      HeightFrameLayout(ResetHeightMm);
      HeightFrame(ResetHeightMm).value
    else
      []
  }

  /** The exact bytes of the three dispatched frames. */
  lemma DispatchBytes()
    ensures DispatchFrame("up") == [0xF1, 0xF1, 0x01, 0x00, 0x01, 0x7E]
    ensures DispatchFrame("down") == [0xF1, 0xF1, 0x02, 0x00, 0x02, 0x7E]
    ensures DispatchFrame("reset") == [0xF1, 0xF1, 0x1B, 0x02, 0x01, 0x2C, 0x4A, 0x7E]
  {
    ResetFrameBytes();
  }

  class SocketIOApp {
    var pedestal: Pedestal?

    /** A pedestal held by the session always has its port open. */
    ghost predicate Valid()
      reads this, if pedestal != null then {pedestal.ser} else {}
    {
      pedestal != null ==> pedestal.ser.isOpen
    }

    function State(): SessionState
      reads this
    {
      if pedestal == null then Unconnected else Connected
    }

    constructor ()
      ensures Valid() && State() == Unconnected
    {
      pedestal := null;
    }

    /** `connect_to_device`: opens the port at 9600 baud, 8 data bits, 1 stop
        bit and no parity, but only when no pedestal exists; an existing one
        is kept and "connected" reported.  A failed open leaves the session
        Unconnected and reports the error. */
    method ConnectToDevice(device: string, opening: OpenOutcome) returns (resp: Response)
      requires Valid()
      modifies this
      ensures Valid()
      ensures State() == Next(old(State()), Connect(opening.Opened?))
      ensures old(pedestal) != null ==>
                pedestal == old(pedestal) && resp == Response("success", "connected")
      ensures old(pedestal) == null && opening.Opened? ==>
                pedestal != null && fresh(pedestal) && fresh(pedestal.ser) &&
                pedestal.ser.name == device && pedestal.ser.baudRate == BaudRate &&
                pedestal.ser.dataBits == DataBits && pedestal.ser.stopBits == StopBits &&
                pedestal.ser.parity == ParityNone &&
                pedestal.ser.written == [] && pedestal.ser.inbound == [] &&
                pedestal.ser.closeCalls == 0 && resp == Response("success", "connected")
      ensures old(pedestal) == null && opening.OpenFailed? ==>
                pedestal == null && resp == Response("error", opening.reason)
    {
      if pedestal == null {
        match opening
        case OpenFailed(reason) =>
          return Response("error", reason);
        case Opened =>
          pedestal := new Pedestal(device, BaudRate, DataBits, StopBits, ParityNone);
      }
      resp := Response("success", "connected");
    }

    /** `disconnect_device`: closes the port if there is a pedestal, and drops
        the pedestal whether or not the close raised.  Without a pedestal
        nothing is closed. */
    method DisconnectDevice(closeSucceeds: bool)
      requires Valid()
      modifies this, if pedestal != null then {pedestal.ser} else {}
      ensures Valid() && pedestal == null
      ensures State() == Next(old(State()), Disconnect)
      ensures old(pedestal) != null ==>
                old(pedestal).ser.closeCalls == old(pedestal.ser.closeCalls) + 1 &&
                old(pedestal).ser.isOpen == !closeSucceeds &&
                old(pedestal).ser.written == old(pedestal.ser.written) &&
                old(pedestal).ser.inbound == old(pedestal.ser.inbound)
    {
      if pedestal != null {
        var closed := pedestal.CloseSerial(closeSucceeds);
        pedestal := null;
      }
    }

    /** The `send_data` handler: "up", "down" and "reset" make the pedestal
        write their frame; any other message does nothing.  Without a pedestal
        those three messages fail (the attribute access on None) before
        anything is written. */
    method HandleSendData(message: string) returns (r: Result<()>)
      requires Valid()
      modifies if pedestal != null then {pedestal.ser} else {}
      ensures Valid()
      ensures State() == Next(old(State()), Dispatch)
      ensures pedestal == null ==>
                r == if message in {"up", "down", "reset"} then Err(NoPedestal) else Ok(())
      ensures pedestal != null ==>
                r == Ok(()) && pedestal.ser.written == old(pedestal.ser.written) + DispatchFrame(message)
      ensures pedestal != null ==>
                pedestal.ser.isOpen && pedestal.ser.inbound == old(pedestal.ser.inbound) &&
                pedestal.ser.closeCalls == old(pedestal.ser.closeCalls)
    {
      r := Ok(());
      if message == "up" {
        if pedestal == null {
          r := Err(NoPedestal);
        } else {
          r := pedestal.MoveUp();
        }
      }
      if message == "down" {
        if pedestal == null {
          r := Err(NoPedestal);
        } else {
          r := pedestal.MoveDown();
        }
      }
      if message == "reset" {
        if pedestal == null {
          r := Err(NoPedestal);
        } else {
          r := pedestal.MoveToHeight(ResetHeightMm);
        }
      }
    }
  }

  /** A client connects, asks for a reset and disconnects twice: the port sees
      exactly the 300 mm frame and is closed once. */
  method ConnectResetDisconnect()
  {
    var app := new SocketIOApp();
    var resp := app.ConnectToDevice("/dev/ttyUSB0", Opened);
    assert resp == Response("success", "connected");
    var p := app.pedestal;
    var r := app.HandleSendData("reset");
    DispatchBytes();
    assert r == Ok(());
    assert p.ser.written == [0xF1, 0xF1, 0x1B, 0x02, 0x01, 0x2C, 0x4A, 0x7E];
    app.DisconnectDevice(true);
    app.DisconnectDevice(true);
    assert p.ser.closeCalls == 1 && !p.ser.isOpen;
    assert app.State() == Unconnected;
  }
}

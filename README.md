# Pedestal serial control — a Dafny model

This project models the core of a small application that drives a motorised
height-adjustable pedestal over a serial line. It has two parts.

- **The wire protocol** (`pedestel.py`). Every command is a frame
  `[0xF1, 0xF1, id, len, data…, checksum, 0x7E]`. The checksum is the low
  8 bits of the sum of id, len and data. Move up (0x01), move down (0x02),
  release (0x0A), quick stop (0x2B) and request height (0x0E) carry no data.
  Move to height (0x1B) carries the height as two big-endian bytes. A reply is
  decoded by taking bytes 4 and 5 of whatever the port has buffered.
- **The device session** (`app.py`). The web application holds at most one
  `Pedestal`. It connects only when it holds none, always drops the pedestal
  on disconnect, and turns the client messages "up", "down" and "reset" into
  frames.

Files:

- `common.dfy`: module `Common`. The `Byte` type, the exceptions the code
  raises as an `Error` datatype, and `Result`.
- `frames.dfy`: module `Frames`. The pure codec: `Checksum`, `FixedFrame`,
  `BigEndian16`, `HeightFrame`, `DecodeHeight` and `Poll`. It also holds
  `WellFormedFrame`, a receiver's definition of a valid frame that is written
  independently of the encoder, and the lemmas that connect them.
- `transport.dfy`: module `Transport`, class `Port`. The serial port as an
  open flag, a log of written bytes, and a buffer of received bytes. A ghost
  counter records how often the port was closed.
- `pedestel.dfy`: module `Pedestel`, class `Pedestal`. One method per method
  of the Python class, except `calculate_checksum`, which changes no state and
  is the function `Frames.Checksum`. Each method is specified by the exact
  bytes it appends to the port's log, or by the codec function it delegates to.
- `app.dfy`: module `App`, class `SocketIOApp`. The session field with its
  invariant (a held pedestal has an open port). The pure transition function
  `Next` describes the Unconnected/Connected machine, and every method states
  its new state as `Next` of the old one.

Inputs from outside the program are parameters. Whether the serial driver
opens the port is an `OpenOutcome`, and whether closing raises is a `bool`.
Bytes that arrive from the device are added through `Port.Deliver`.

Python's `x & 0xFF` equals Dafny's `x % 256` for every integer, negative ones
included, so `Checksum` is stated over `seq<int>` just as `calculate_checksum`
accepts any list of ints.

The reset frame (move to 300 mm) has the checksum (0x1B + 0x02 + 0x01 +
0x2C) & 0xFF = 0x4A (`Frames.ResetFrameBytes`).

## Model

| member | source | states |
|---|---|---|
| `Frames.Checksum` | pedestel.py:56-68 | the sum of the list mod 256, a byte; it equals what an 8-bit running register that adds each byte and drops the carry ends with |
| `Frames.ChecksumEmpty` | pedestel.py:56-68 | the checksum of the empty list is 0 |
| `Frames.ChecksumAppend` | pedestel.py:64-68 | the checksum of a concatenation is the 8-bit sum of the parts' checksums |
| `Frames.ChecksumIsRegister` | pedestel.py:64-68 | summing and then masking gives the same byte as an 8-bit register that adds each byte and drops the carry |
| `Frames.ChecksumOfByte` | pedestel.py:64-68 | a single byte is its own checksum |
| `Frames.FrameUnique` | pedestel.py:39-52 | a well-formed frame is determined by its command id and payload |
| `Frames.FixedFrame` | pedestel.py:10-24 | the 6-byte frame `[0xF1,0xF1,id,0x00,id,0x7E]` of a command without payload (also pedestel.py:70-72) is a well-formed frame for `id` with empty data |
| `Frames.FixedFrameWellFormed` | pedestel.py:10-24 | every zero-payload frame `[0xF1,0xF1,id,0x00,id,0x7E]` is well formed, and its fifth byte is the checksum of `[id, 0x00]` |
| `Frames.BigEndian16` | pedestel.py:34-36 | succeeds exactly for heights in [0, 65535], with `hi*256 + lo == h`; any other height is the overflow error |
| `Frames.HeightFrame` | pedestel.py:26-52 | a frame exists exactly for heights in [0, 65535]; otherwise the overflow error |
| `Frames.HeightFrameLayout` | pedestel.py:34-52 | the height frame is the 8 bytes `0xF1 0xF1 0x1B 0x02 hi lo cs 0x7E`, with `hi*256+lo == h` and `cs == (0x1B+0x02+hi+lo) & 0xFF`; it is a well-formed frame for id 0x1B carrying `[hi, lo]` |
| `Frames.ResetFrameBytes` | app.py:55-56 | the reset request's frame (300 mm) is `[0xF1,0xF1,0x1B,0x02,0x01,0x2C,0x4A,0x7E]` |
| `Frames.DecodeHeight` | pedestel.py:81-86 | fails with the index error exactly when fewer than 6 bytes were read; otherwise the height lies in [0, 65535] and has byte 4 as its high byte and byte 5 as its low byte |
| `Frames.HeightRoundTrip` | pedestel.py:82-86 | decoding the frame built for height h gives back h |
| `Frames.HeightFrameOfDecoded` | pedestel.py:34-52 | every well-formed 2-byte move-to-height frame is the frame built for the height it decodes to |
| `Frames.Poll` | pedestel.py:78-90 | an empty buffer gives no reading, 1 to 5 bytes give the index error, 6 or more bytes give the height from bytes 4 and 5 |
| `Frames.PollIgnoresFraming` | pedestel.py:82-86 | the reading depends only on bytes 4 and 5: markers and checksum are not validated |
| `Transport.Port.Open` | pedestel.py:8 | an opened port keeps its settings, is open, and has an empty log and input buffer |
| `Transport.Port.Write` | pedestel.py:75 | an open port appends the bytes to its log unchanged; a closed one raises and writes nothing |
| `Transport.Port.InWaiting` | pedestel.py:79 | the number of buffered bytes, zero exactly when the buffer is empty; a closed port raises |
| `Transport.Port.Read` | pedestel.py:80 | removes and returns the oldest `min(size, buffered)` bytes |
| `Transport.Port.Close` | pedestel.py:93 | counts one close; the port is closed unless the close raised |
| `Pedestel.Pedestal.constructor` | pedestel.py:6-8 | the pedestal owns a fresh open port with the given settings |
| `Pedestel.Pedestal.SendCommand` | pedestel.py:74-75 | the command bytes are written unchanged and in order, and nothing else |
| `Pedestel.Pedestal.MoveUp` | pedestel.py:10-12 | writes exactly `[0xF1,0xF1,0x01,0x00,0x01,0x7E]` |
| `Pedestel.Pedestal.MoveDown` | pedestel.py:14-16 | writes exactly `[0xF1,0xF1,0x02,0x00,0x02,0x7E]` |
| `Pedestel.Pedestal.Release` | pedestel.py:18-20 | writes exactly `[0xF1,0xF1,0x0A,0x00,0x0A,0x7E]` |
| `Pedestel.Pedestal.QuickStop` | pedestel.py:22-24 | writes exactly `[0xF1,0xF1,0x2B,0x00,0x2B,0x7E]` |
| `Pedestel.Pedestal.RequestHeight` | pedestel.py:70-72 | writes exactly `[0xF1,0xF1,0x0E,0x00,0x0E,0x7E]` |
| `Pedestel.Pedestal.MoveToHeight` | pedestel.py:26-54 | a height outside [0, 65535] raises and writes nothing; otherwise writes exactly `HeightFrame(h)` |
| `Pedestel.Pedestal.Read` | pedestel.py:78-90 | the result is `Poll` of everything that was buffered, and the buffer is left empty |
| `Pedestel.Pedestal.CloseSerial` | pedestel.py:92-93 | closes the port, unless the close raises |
| `App.DisconnectIdempotent` | app.py:93-103 | a disconnect always ends Unconnected, and a second one changes nothing |
| `App.LeavingUnconnected` | app.py:82-83 | the only way out of Unconnected is a connect whose port opens |
| `App.DispatchFrame` | app.py:49-56 | "up", "down" and "reset" map to a well-formed frame; every other message maps to no bytes |
| `App.DispatchBytes` | app.py:51-56 | the exact bytes written for "up", "down" and "reset" |
| `App.SocketIOApp.constructor` | app.py:23 | a new application starts Unconnected |
| `App.SocketIOApp.ConnectToDevice` | app.py:73-86 | when already connected, keeps the same pedestal and reports success; otherwise a successful open creates a pedestal on the named port at 9600 baud, 8 data bits, 1 stop bit and no parity; a failed open stays Unconnected and reports the error text |
| `App.SocketIOApp.DisconnectDevice` | app.py:93-103 | always ends Unconnected; a held pedestal's port is closed exactly once, whether or not the close raises; with no pedestal nothing is closed |
| `App.SocketIOApp.HandleSendData` | app.py:48-56 | when connected, writes exactly `DispatchFrame(message)` and keeps the port open; when Unconnected, "up", "down" and "reset" fail before any write and other messages do nothing |

## Left out

- The web layer: Flask, Socket.IO, CORS, gevent patching, the `/` route, the event registration and `run` (app.py:1-22, 24-47, 89-91, 105-110). The handlers for `connect_to_device` and `disconnect` only forward to the modelled methods.
- `list_usb_devices` (app.py:65-71). It only wraps the operating system's list of serial ports.
- The browser script `static/js/scripts.js`. It is user interface code.
- `main` in pedestel.py:95-110. It is an endless demonstration loop with `time.sleep`, and it calls `Pedestal()` without the required arguments.
- Logging with `print`. It has no effect on state. `Pedestel.Pedestal.Read` returns the height that the source only prints.
- The serial driver itself. Opening, writing, reading and closing are modelled by `Transport.Port`. Whether the open or the close raises is an input to the model, and the text of an open error is an input too.
- Pedestel.Pedestal.constructor: a failed open is not modelled inside the constructor. `App.SocketIOApp.ConnectToDevice` decides it through its `OpenOutcome` parameter and then creates no pedestal.
- Transport.Port.Close: a close that raises leaves the port as it was. The state of a real port after a failed close is not known.
- Transport.Port.Write: a write to an open port never fails. Driver-level write errors and timeouts are not modelled.
- Concurrency between socket handlers is not modelled. Each method runs to completion on its own.

/** The pedestal's serial wire format: the additive checksum, the fixed
    zero-payload command frames, the move-to-height frame and the height
    decoded from a reply.  A frame is
      [0xF1, 0xF1, id, len, data (len bytes), checksum, 0x7E]
    where the checksum is the low 8 bits of id + len + the sum of the data. */
module Frames {
  import opened Common

  const Start: Byte := 0xF1
  const End: Byte := 0x7E

  const MoveUpId: Byte := 0x01
  const MoveDownId: Byte := 0x02
  const ReleaseId: Byte := 0x0A
  const QuickStopId: Byte := 0x2B
  const RequestHeightId: Byte := 0x0E
  const MoveToHeightId: Byte := 0x1B
  const HeightDataLength: Byte := 0x02

  /** Python's built-in `sum` over a list of integers. */
  function Sum(s: seq<int>): int
  {
    if s == [] then 0 else s[0] + Sum(s[1..])
  }


  lemma {:induction false} SumAppend(a: seq<int>, b: seq<int>)
    ensures Sum(a + b) == Sum(a) + Sum(b)
  {
    if a == [] {
      assert a + b == b;
    } else {
      assert (a + b)[1..] == a[1..] + b;
      SumAppend(a[1..], b);
    }
  }

  /** The empty list has checksum 0. */
  lemma ChecksumEmpty()
    ensures Checksum([]) == 0
  {
  }

  /** Checksums compose: the checksum of a concatenation is the 8-bit sum of
      the parts' checksums, so a frame's checksum may be computed piecewise. */
  lemma ChecksumAppend(a: seq<int>, b: seq<int>)
    ensures Checksum(a + b) == (Checksum(a) + Checksum(b)) % 256
  {
    SumAppend(a, b);
    var x, y := Sum(a), Sum(b);
    assert x == 256 * (x / 256) + x % 256;
    assert y == 256 * (y / 256) + y % 256;
    assert x + y == 256 * (x / 256 + y / 256) + (x % 256 + y % 256);
  }

  /** An 8-bit register that adds each byte and drops the carry, as a device
      checking a frame byte by byte would. */
  function Register(acc: Byte, s: seq<int>): Byte
    decreases |s|
  {
    if s == [] then acc else Register((acc + s[0]) % 256, s[1..])
  }

  lemma {:induction false} RegisterAdds(acc: Byte, s: seq<int>)
    ensures Register(acc, s) == (acc + Sum(s)) % 256
    decreases |s|
  {
    if s != [] {
      var next := (acc + s[0]) % 256;
      RegisterAdds(next, s[1..]);
      var t := acc + s[0];
      assert t == 256 * (t / 256) + next;
      assert next + Sum(s[1..]) == acc + Sum(s) - 256 * (t / 256);
    }
  }

  /** `calculate_checksum`: the sum of the list, then `& 0xFF`.  On every
      Python int (negative ones too) `x & 0xFF` is the non-negative
      remainder of x by 256, which is what Dafny's `%` computes.  The result
      is the byte an 8-bit running register ends with. */
  function Checksum(data: seq<int>): (r: Byte)
    ensures r == Register(0, data)
  {
    RegisterAdds(0, data);
    Sum(data) % 256
  }

  /** The checksum of the sum-then-mask definition equals the one an 8-bit
      running register computes: masking once at the end loses nothing. */
  lemma ChecksumIsRegister(s: seq<int>)
    ensures Checksum(s) == Register(0, s)
  {
  }

  /** A single byte is its own checksum. */
  lemma ChecksumOfByte(b: Byte)
    ensures Checksum([b]) == b
  {
    assert [b][1..] == [];
    assert Sum([b]) == b + Sum([]);
  }

  /** The frame a receiver accepts for command `id` carrying `data`: markers,
      id, length byte, the data, and a checksum over everything between the
      start markers and the checksum itself. */
  predicate WellFormedFrame(f: seq<Byte>, id: Byte, data: seq<Byte>)
  {
    |data| < 256 && |f| == |data| + 6 &&
    f[0] == Start && f[1] == Start && f[2] == id && f[3] == |data| &&
    f[4..4 + |data|] == data &&
    f[|f| - 2] == Checksum(f[2..|f| - 2]) &&
    f[|f| - 1] == End
  }

  /** There is one frame per command id and payload. */
  lemma FrameUnique(f: seq<Byte>, g: seq<Byte>, id: Byte, data: seq<Byte>)
    requires WellFormedFrame(f, id, data) && WellFormedFrame(g, id, data)
    ensures f == g
  {
    var n := |data|;
    assert f[2..n + 4] == [id, n] + data by {
      assert f[2..n + 4] == f[2..4] + f[4..n + 4];
    }
    assert g[2..n + 4] == [id, n] + data by {
      assert g[2..n + 4] == g[2..4] + g[4..n + 4];
    }
    assert f == f[..2] + f[2..n + 4] + f[n + 4..];
    assert g == g[..2] + g[2..n + 4] + g[n + 4..];
  }

  /** The frame of a command without payload, as the source writes it out:
      the checksum byte is the id itself. */
  function FixedFrame(id: Byte): (r: seq<Byte>)
    ensures |r| == 6 && WellFormedFrame(r, id, [])
  {
    ChecksumAppend([id], [0]);
    ChecksumOfByte(id);
    ChecksumOfByte(0);
    assert [id] + [0] == [id, 0x00];
    var f := [Start, Start, id, 0x00, id, End];
    assert f[2..|f| - 2] == [id, 0x00];
    f
  }

  /** Every zero-payload frame is well formed: its fifth byte is the checksum
      of [id, 0x00]. */
  lemma FixedFrameWellFormed(id: Byte)
    ensures FixedFrame(id)[4] == Checksum([id, 0x00])
    ensures WellFormedFrame(FixedFrame(id), id, [])
  {
    var f := FixedFrame(id);
    assert [id, 0x00] == [id] + [0];
    ChecksumAppend([id], [0]);
    ChecksumOfByte(id);
    ChecksumOfByte(0);
    assert f[2..|f| - 2] == [id, 0x00];
  }

  /** `height_mm.to_bytes(2, byteorder='big')`: the high and the low byte of
      the height; Python raises OverflowError outside [0, 65535]. */
  function BigEndian16(h: int): (r: Result<(Byte, Byte)>)
    ensures r.Ok? <==> 0 <= h < 0x1_0000
    ensures r.Err? ==> r.error == HeightOutOfRange
    ensures r.Ok? ==> r.value.0 * 256 + r.value.1 == h
  {
    if 0 <= h < 0x1_0000 then Ok((h / 256, h % 256)) else Err(HeightOutOfRange)
  }

  /** The frame `moveToHeight_MM` builds, or the OverflowError it raises
      before sending anything. */
  function HeightFrame(h: int): (r: Result<seq<Byte>>)
    ensures r.Ok? <==> 0 <= h < 0x1_0000
    ensures r.Err? ==> r.error == HeightOutOfRange
  {
    match BigEndian16(h)
    case Err(e) => Err(e)
    case Ok((hi, lo)) =>
      var forChecksum := [MoveToHeightId] + [HeightDataLength] + [hi, lo];
      Ok([Start, Start] + [MoveToHeightId] + [HeightDataLength] + [hi, lo] + [Checksum(forChecksum)] + [End])
  }

  /** A height frame is 8 bytes: 0xF1 0xF1 0x1B 0x02, then the big-endian
      height, then (0x1B + 0x02 + hi + lo) & 0xFF, then 0x7E; it is a well
      formed frame for id 0x1B carrying [hi, lo]. */
  lemma HeightFrameLayout(h: int)
    requires 0 <= h < 0x1_0000
    ensures HeightFrame(h).Ok?
    ensures |HeightFrame(h).value| == 8
    ensures HeightFrame(h).value[..4] == [0xF1, 0xF1, 0x1B, 0x02]
    ensures HeightFrame(h).value[4] as int * 256 + HeightFrame(h).value[5] as int == h
    ensures HeightFrame(h).value[6]
         == (0x1B + 0x02 + HeightFrame(h).value[4] as int + HeightFrame(h).value[5] as int) % 256
    ensures HeightFrame(h).value[7] == 0x7E
    ensures WellFormedFrame(HeightFrame(h).value, MoveToHeightId, HeightFrame(h).value[4..6])
  {
    var f := HeightFrame(h).value;
    var hi: Byte, lo: Byte := h / 256, h % 256;
    assert BigEndian16(h) == Ok((hi, lo));
    var covered: seq<Byte> := [MoveToHeightId] + [HeightDataLength] + [hi, lo];
    assert f == [Start, Start] + covered + [Checksum(covered)] + [End];
    assert f[2..6] == covered;
    SumOfFour(MoveToHeightId, HeightDataLength, hi, lo);
    assert covered == [MoveToHeightId, HeightDataLength, hi, lo];
  }

  lemma SumOfFour(a: int, b: int, c: int, d: int)
    ensures Sum([a, b, c, d]) == a + b + c + d
  {
    assert [a, b, c, d][1..] == [b, c, d];
    assert [b, c, d][1..] == [c, d];
    assert [c, d][1..] == [d];
    assert [d][1..] == [];
    assert Sum([d]) == d + Sum([]);
    assert Sum([c, d]) == c + Sum([d]);
    assert Sum([b, c, d]) == b + Sum([c, d]);
  }

  /** The frame sent for the web client's "reset" request: height 300 mm. */
  lemma ResetFrameBytes()
    ensures HeightFrame(300) == Ok([0xF1, 0xF1, 0x1B, 0x02, 0x01, 0x2C, 0x4A, 0x7E])
  {
    assert BigEndian16(300) == Ok((0x01, 0x2C));
    var covered: seq<Byte> := [MoveToHeightId] + [HeightDataLength] + [0x01, 0x2C];
    assert covered == [0x1B, 0x02, 0x01, 0x2C];
    SumOfFour(0x1B, 0x02, 0x01, 0x2C);
    assert Checksum(covered) == 0x4A;
    var expected: seq<Byte> := [0xF1, 0xF1, 0x1B, 0x02, 0x01, 0x2C, 0x4A, 0x7E];
    assert HeightFrame(300).value == [Start, Start] + covered + [0x4A] + [End] == expected;
  }

  /** `read`'s decoding of the bytes it took from the port: bytes 4 and 5 as
      the high and low half, `(data_h << 8) | data_l`; fewer than 6 bytes
      raise IndexError.  Markers and checksum are not looked at. */
  function DecodeHeight(res: seq<Byte>): (r: Result<int>)
    ensures r.Ok? <==> |res| >= 6
    ensures r.Err? ==> r.error == ShortResponse
    ensures r.Ok? ==> 0 <= r.value < 0x1_0000 && r.value / 256 == res[4] && r.value % 256 == res[5]
  {
    if |res| < 6 then Err(ShortResponse) else Ok(res[4] as int * 256 + res[5] as int)
  }

  /** Decoding a height frame gives back the height it was built from. */
  lemma HeightRoundTrip(h: int)
    requires 0 <= h < 0x1_0000
    ensures DecodeHeight(HeightFrame(h).value) == Ok(h)
  {
    HeightFrameLayout(h);
  }

  /** Conversely every well-formed move-to-height frame is the one built for
      the height it decodes to, so encoding and decoding are inverse on the
      whole frame and not just on the height bytes. */
  lemma HeightFrameOfDecoded(f: seq<Byte>, data: seq<Byte>)
    requires WellFormedFrame(f, MoveToHeightId, data) && |data| == 2
    ensures DecodeHeight(f).Ok?
    ensures HeightFrame(DecodeHeight(f).value) == Ok(f)
  {
    var h := DecodeHeight(f).value;
    HeightFrameLayout(h);
    assert data == [f[4], f[5]];
    assert HeightFrame(h).value[4..6] == [h / 256, h % 256];
    FrameUnique(f, HeightFrame(h).value, MoveToHeightId, data);
  }

  /** What `read` finds on the port: nothing buffered, or a height. */
  datatype Reading = NoData | Height(mm: int)

  /** The outcome of `read` on the bytes the port had buffered: "no data" for
      an empty buffer, IndexError for 1 to 5 bytes, otherwise the height. */
  function Poll(buffer: seq<Byte>): (r: Result<Reading>)
    ensures r == Ok(NoData) <==> buffer == []
    ensures r == Err(ShortResponse) <==> 0 < |buffer| < 6
    ensures |buffer| >= 6 ==>
              r.Ok? && r.value.Height? && r.value.mm / 256 == buffer[4] && r.value.mm % 256 == buffer[5]
  {
    if buffer == [] then Ok(NoData)
    else match DecodeHeight(buffer)
      case Ok(h) => Ok(Height(h))
      case Err(e) => Err(e)
  }

  /** The decoder does not validate the frame: two buffers that agree on bytes
      4 and 5 give the same reading, whatever their markers and checksum. */
  lemma PollIgnoresFraming(a: seq<Byte>, b: seq<Byte>)
    requires |a| >= 6 && |b| >= 6 && a[4] == b[4] && a[5] == b[5]
    ensures Poll(a) == Poll(b)
  {
  }
}

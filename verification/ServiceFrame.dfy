/** The binary frame of service requests and responses. */
module ServiceFrame {
  import opened Wrappers

  type Byte = x: int | 0 <= x < 256

  type Uint32 = x: int | 0 <= x < 0x1_0000_0000

  datatype Error = TooShort | EncodingTooLarge | EncodingExceedsData

  type Result<+T> = Wrappers.Result<T, Error>

  datatype Response = Response(serviceId: Uint32, callId: Uint32, encoding: seq<Byte>, servData: seq<Byte>)

  const MAX_ENCODING_LENGTH: nat := 256

  // --- Little-endian numbers ---

  function Write32(v: Uint32): (b: seq<Byte>)
    ensures |b| == 4
  {
    [v % 256, v / 256 % 256, v / 65536 % 256, v / 16777216]
  }

  function Read32(b: seq<Byte>): Uint32
    requires |b| == 4
  {
    var b0: int, b1: int, b2: int, b3: int := b[0], b[1], b[2], b[3];
    b0 + b1 * 256 + b2 * 65536 + b3 * 16777216
  }

  /** The bytes of a number, the low one first. */
  lemma {:induction false} LittleEndian(v: Uint32)
    ensures var b := Write32(v); v == b[0] as int + 256 * (b[1] as int + 256 * (b[2] as int + 256 * b[3] as int))
  {
    var v1 := v / 256;
    var v2 := v1 / 256;
    assert v / 65536 == v2 && v / 16777216 == v2 / 256;
  }

  lemma {:induction false} ReadWrite32(v: Uint32)
    ensures Read32(Write32(v)) == v
  {
    var v1 := v / 256;
    var v2 := v1 / 256;
    assert v / 65536 == v2 && v / 16777216 == v2 / 256;
  }

  lemma {:induction false} WriteRead32(b: seq<Byte>)
    requires |b| == 4
    ensures Write32(Read32(b)) == b
  {
    var v := Read32(b);
    var b1: int, b2: int, b3: int := b[1], b[2], b[3];
    assert v / 256 == b1 + b2 * 256 + b3 * 65536;
    assert v / 65536 == b2 + b3 * 256;
    assert v / 16777216 == b3;
  }

  // --- Frames ---

  function Frame(r: Response): seq<Byte> {
    Write32(r.serviceId) + Write32(r.callId) + Write32(|r.encoding| % 0x1_0000_0000) + r.encoding + r.servData
  }

  function Parse(b: seq<Byte>): Result<Response> {
    if |b| < 12 then Err(TooShort)
    else
      var n := Read32(b[8..12]);
      if n > MAX_ENCODING_LENGTH then Err(EncodingTooLarge)
      else if 12 + n > |b| then Err(EncodingExceedsData)
      else Ok(Response(Read32(b[..4]), Read32(b[4..8]), b[12..12 + n], b[12 + n..]))
  }

  /** The layout: service id, call id and length of the encoding in four bytes each, encoding, payload. */
  lemma {:induction false} FrameParts(r: Response)
    ensures var b := Frame(r);
            && |b| == 12 + |r.encoding| + |r.servData|
            && b[..4] == Write32(r.serviceId) && b[4..8] == Write32(r.callId)
            && b[8..12] == Write32(|r.encoding| % 0x1_0000_0000)
            && b[12..12 + |r.encoding|] == r.encoding && b[12 + |r.encoding|..] == r.servData
  {
  }

  /** Reading a written response gives it back if and only if its encoding has at most 256 bytes. */
  lemma {:induction false} ParseFrameIff(r: Response)
    ensures Parse(Frame(r)) == Ok(r) <==> |r.encoding| <= MAX_ENCODING_LENGTH
  {
    FrameParts(r);
    ReadWrite32(r.serviceId);
    ReadWrite32(r.callId);
    ReadWrite32(|r.encoding| % 0x1_0000_0000);
    var b := Frame(r);
    if Parse(b).Ok? {
      assert |Parse(b).value.encoding| <= MAX_ENCODING_LENGTH;
    }
  }

  /** Writing what was read rebuilds every accepted byte string, so reading loses nothing. */
  lemma {:induction false} FrameParse(b: seq<Byte>)
    requires Parse(b).Ok?
    ensures Frame(Parse(b).value) == b
  {
    var r := Parse(b).value;
    var n := |r.encoding|;
    FrameParts(r);
    WriteRead32(b[..4]);
    WriteRead32(b[4..8]);
    WriteRead32(b[8..12]);
    assert n % 0x1_0000_0000 == Read32(b[8..12]);
    Join(b, n);
  }

  /** The accepted byte strings are exactly the frames of responses whose encoding is short enough. */
  lemma {:induction false} AcceptedIff(b: seq<Byte>)
    ensures Parse(b).Ok? <==> exists r: Response :: |r.encoding| <= MAX_ENCODING_LENGTH && Frame(r) == b
  {
    if Parse(b).Ok? {
      FrameParse(b);
      assert |Parse(b).value.encoding| <= MAX_ENCODING_LENGTH;
    }
    if r: Response :| |r.encoding| <= MAX_ENCODING_LENGTH && Frame(r) == b {
      ParseFrameIff(r);
    }
  }

  lemma {:induction false} Join(b: seq<Byte>, n: nat)
    requires 12 + n <= |b|
    ensures b[..4] + b[4..8] + b[8..12] + b[12..12 + n] + b[12 + n..] == b
  {
  }

  // --- The object ---

  // The buffer's bytes with `bytes` laid over them at `at`.
  function Splice(buffer: seq<Byte>, at: nat, bytes: seq<Byte>): (r: seq<Byte>)
    requires at + |bytes| <= |buffer|
    ensures |r| == |buffer|
  {
    buffer[..at] + bytes + buffer[at + |bytes|..]
  }

  lemma {:induction false} SpliceTwice(buffer: seq<Byte>, at: nat, a: seq<Byte>, b: seq<Byte>)
    requires at + |a| + |b| <= |buffer|
    ensures Splice(Splice(buffer, at, a), at + |a|, b) == Splice(buffer, at, a + b)
  {
  }

  // write_uint32_LE
  method WriteAt(buf: array<Byte>, at: nat, v: Uint32)
    requires at + 4 <= buf.Length
    modifies buf
    ensures buf[..] == Splice(old(buf[..]), at, Write32(v))
  {
    buf[at] := v % 256;
    buf[at + 1] := v / 256 % 256;
    buf[at + 2] := v / 65536 % 256;
    buf[at + 3] := v / 16777216;
  }

  // read_uint32_LE
  method ReadAt(buf: array<Byte>, at: nat) returns (v: Uint32)
    requires at + 4 <= buf.Length
    ensures v == Read32(buf[at..at + 4])
  {
    var b0: int, b1: int, b2: int, b3: int := buf[at], buf[at + 1], buf[at + 2], buf[at + 3];
    v := b0 + b1 * 256 + b2 * 65536 + b3 * 16777216;
  }

  // memcpy from a string or vector into the buffer.
  method CopyAt(buf: array<Byte>, at: nat, bytes: seq<Byte>)
    requires at + |bytes| <= buf.Length
    modifies buf
    ensures buf[..] == Splice(old(buf[..]), at, bytes)
  {
    forall i | 0 <= i < |bytes| {
      buf[at + i] := bytes[i];
    }
  }

  class ServiceResponse {
    var serviceId: Uint32
    var callId: Uint32
    var encoding: seq<Byte>
    var servData: seq<Byte>

    ghost function Value(): Response
      reads this
    {
      Response(serviceId, callId, encoding, servData)
    }

    function Size(): nat
      reads this
    {
      4 + 4 + 4 + |encoding| + |servData|
    }

    // A failed read may leave new ids behind, never a new encoding or payload.
    method Read(data: array<Byte>) returns (r: Result<()>)
      modifies this
      ensures match Parse(data[..])
              case Ok(v) => r == Ok(()) && Value() == v
              case Err(e) => r == Err(e) && encoding == old(encoding) && servData == old(servData)
    {
      if data.Length < 12 {
        return Err(TooShort);
      }
      var offset := 0;
      serviceId := ReadAt(data, offset);
      offset := offset + 4;
      callId := ReadAt(data, offset);
      offset := offset + 4;
      var encodingLength := ReadAt(data, offset);
      offset := offset + 4;
      assert data[0..4] == data[..][..4] && data[4..8] == data[..][4..8] && data[8..12] == data[..][8..12];
      if encodingLength > MAX_ENCODING_LENGTH {
        return Err(EncodingTooLarge);
      }
      if offset + encodingLength > data.Length {
        return Err(EncodingExceedsData);
      }
      encoding := data[offset..offset + encodingLength];
      offset := offset + encodingLength;
      servData := data[offset..];
      return Ok(());
    }

    // The frame starts at offset `start` of the caller's buffer.
    method Write(data: array<Byte>, start: nat)
      requires start + Size() <= data.Length
      modifies data
      ensures data[..] == Splice(old(data[..]), start, Frame(Value()))
    {
      ghost var was, ids := data[..], Write32(serviceId) + Write32(callId);
      ghost var header := ids + Write32(|encoding| % 0x1_0000_0000);
      var offset := start;
      WriteAt(data, offset, serviceId);
      offset := offset + 4;
      SpliceTwice(was, start, Write32(serviceId), Write32(callId));
      WriteAt(data, offset, callId);
      offset := offset + 4;
      SpliceTwice(was, start, ids, Write32(|encoding| % 0x1_0000_0000));
      WriteAt(data, offset, |encoding| % 0x1_0000_0000);
      offset := offset + 4;
      SpliceTwice(was, start, header, encoding);
      CopyAt(data, offset, encoding);
      offset := offset + |encoding|;
      SpliceTwice(was, start, header + encoding, servData);
      CopyAt(data, offset, servData);
    }
  }
}

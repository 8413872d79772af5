/** The ten-byte request and acknowledgement frames:
    AA 55 04 seqHi seqLo kind code checksum 0D 0A. */
module ReliableProtocol {
  import opened Basics
  import opened WireBytes

  const HEADER1: byte := 0xAA
  const HEADER2: byte := 0x55
  const TAIL1: byte := 0x0D
  const TAIL2: byte := 0x0A
  const LENGTH: byte := 0x04
  const FRAME_SIZE := 10

  datatype FrameType = Request | Ack

  function TypeByte(t: FrameType): byte {
    match t case Request => 0x01 case Ack => 0x02
  }

  const RESULT_OK: byte := 0x00

  /** A 16-bit sequence number. */
  datatype Number = Number(bits: bv16)

  /** Sequence number and command or result code. Codes are not checked by the decoders. */
  datatype Body = Body(sequence: Number, code: byte)

  function Xor5(a: byte, b: byte, c: byte, d: byte, e: byte): byte {
    a ^ b ^ c ^ d ^ e
  }

  /** A frame with any length byte and the checksum that goes with it. */
  function Frame(length: byte, t: FrameType, f: Body): (bytes: seq<byte>)
    ensures |bytes| == FRAME_SIZE
  {
    [HEADER1, HEADER2, length, High(f.sequence.bits), Low(f.sequence.bits), TypeByte(t), f.code,
     Xor5(length, High(f.sequence.bits), Low(f.sequence.bits), TypeByte(t), f.code), TAIL1, TAIL2]
  }

  /** `encodeRequest` and `encodeAck`. */
  function Encode(t: FrameType, f: Body): (bytes: seq<byte>)
    ensures |bytes| == FRAME_SIZE
  {
    Frame(LENGTH, t, f)
  }

  /** `decodeRequest` and `decodeAck`. */
  function Decode(t: FrameType, bytes: seq<byte>): Option<Body> {
    if |bytes| != FRAME_SIZE then None
    else if bytes[0] != HEADER1 || bytes[1] != HEADER2 then None
    else if bytes[8] != TAIL1 || bytes[9] != TAIL2 then None
    else if bytes[5] != TypeByte(t) then None
    else if Checksum(bytes, 2, 7) != bytes[7] then None
    else Some(Body(Number(Join(bytes[3], bytes[4])), bytes[6]))
  }

  lemma ChecksumOfFive(bytes: seq<byte>)
    requires |bytes| >= 7
    ensures Checksum(bytes, 2, 7) == Xor5(bytes[2], bytes[3], bytes[4], bytes[5], bytes[6])
  {
    hide Checksum;
    ChecksumStep(bytes, 2, 2);
    ChecksumStep(bytes, 2, 3);
    ChecksumStep(bytes, 2, 4);
    ChecksumStep(bytes, 2, 5);
    ChecksumStep(bytes, 2, 6);
    XorZero(bytes[2]);
  }

  lemma DecodeOfFrame(length: byte, t: FrameType, f: Body)
    ensures Decode(t, Frame(length, t, f)) == Some(f)
  {
    hide Checksum, High, Low, Join, Xor5;
    ChecksumOfFive(Frame(length, t, f));
    JoinSplit(f.sequence.bits);
  }

  lemma FrameOfDecode(t: FrameType, bytes: seq<byte>)
    requires Decode(t, bytes).Some?
    ensures |bytes| == FRAME_SIZE && bytes == Frame(bytes[2], t, Decode(t, bytes).value)
  {
    hide Checksum, High, Low, Join, Xor5;
    ChecksumOfFive(bytes);
    SplitJoin(bytes[3], bytes[4]);
  }

  /** The wire form byte by byte: 01 marks a request, 02 an acknowledgement. */
  lemma EncodeBytes(t: FrameType, f: Body)
    ensures var b := Encode(t, f);
      && b[0] == 0xAA && b[1] == 0x55 && b[2] == 0x04
      && BigEndian(b[3], b[4]) == f.sequence.bits
      && b[5] == (match t case Request => 0x01 case Ack => 0x02)
      && b[6] == f.code && b[7] == Xor5(0x04, b[3], b[4], b[5], b[6])
      && b[8] == 0x0D && b[9] == 0x0A
  {
    HighLow(f.sequence.bits);
    hide High, Low, BigEndian, Xor5;
  }

  /** What a decoder accepts, in both directions: a well-formed frame of its type whose length byte
      may be anything. */
  lemma DecodeExact(t: FrameType, bytes: seq<byte>, f: Body)
    ensures Decode(t, bytes) == Some(f) <==> exists length :: bytes == Frame(length, t, f)
  {
    hide Decode, Frame;
    if Decode(t, bytes) == Some(f) {
      FrameOfDecode(t, bytes);
    }
    if length :| bytes == Frame(length, t, f) {
      DecodeOfFrame(length, t, f);
    }
  }

  /** So decoding determines the bytes exactly when the length byte is the right one. */
  lemma DecodedIsEncodedIff(t: FrameType, bytes: seq<byte>)
    requires Decode(t, bytes).Some?
    ensures |bytes| == FRAME_SIZE && (bytes == Encode(t, Decode(t, bytes).value) <==> bytes[2] == LENGTH)
  {
    hide Decode, Xor5, High, Low;
    FrameOfDecode(t, bytes);
  }

  /** A frame with the wrong length byte that is nevertheless accepted. */
  lemma WrongLengthIsAccepted()
    ensures exists bytes: seq<byte>, f ::
      |bytes| == FRAME_SIZE && bytes[2] != LENGTH && Decode(Request, bytes) == Some(f) && bytes != Encode(Request, f)
  {
    hide Decode, Xor5, High, Low;
    var f := Body(Number(3), 0x02);
    var bytes := Frame(0x07, Request, f);
    DecodeOfFrame(0x07, Request, f);
    assert bytes[2] != Encode(Request, f)[2];
  }

  function Xor2(a: byte, b: byte): byte {
    a ^ b
  }

  lemma Differ(x: byte, y: byte, b: byte)
    ensures x != y ==> Xor2(x, b) != Xor2(y, b) && Xor2(b, x) != Xor2(b, y)
  {
  }

  lemma XorNested(a: byte, b: byte, c: byte, d: byte, e: byte)
    ensures Xor5(a, b, c, d, e) == Xor2(Xor2(Xor2(Xor2(a, b), c), d), e)
  {
  }

  /** Two nested checksums whose inner parts differ differ. */
  lemma DifferOn(x: byte, y: byte, b: byte, c: byte, d: byte)
    ensures x != y ==> Xor2(Xor2(x, b), c) != Xor2(Xor2(y, b), c)
    ensures x != y ==> Xor2(Xor2(Xor2(x, b), c), d) != Xor2(Xor2(Xor2(y, b), c), d)
  {
    hide Xor2;
    Differ(x, y, b);
    Differ(Xor2(x, b), Xor2(y, b), c);
    Differ(Xor2(Xor2(x, b), c), Xor2(Xor2(y, b), c), d);
  }

  lemma XorChanges(a: byte, b: byte, c: byte, d: byte, e: byte, x: byte)
    ensures x != a ==> Xor5(x, b, c, d, e) != Xor5(a, b, c, d, e)
    ensures x != b ==> Xor5(a, x, c, d, e) != Xor5(a, b, c, d, e)
    ensures x != c ==> Xor5(a, b, x, d, e) != Xor5(a, b, c, d, e)
    ensures x != d ==> Xor5(a, b, c, x, e) != Xor5(a, b, c, d, e)
    ensures x != e ==> Xor5(a, b, c, d, x) != Xor5(a, b, c, d, e)
  {
    hide Xor2, Xor5;
    XorNested(a, b, c, d, e);
    XorNested(x, b, c, d, e);
    XorNested(a, x, c, d, e);
    XorNested(a, b, x, d, e);
    XorNested(a, b, c, x, e);
    XorNested(a, b, c, d, x);
    var ab := Xor2(a, b);
    var abc := Xor2(ab, c);
    Differ(x, a, b);
    DifferOn(Xor2(x, b), ab, c, d, e);
    Differ(x, b, a);
    DifferOn(Xor2(a, x), ab, c, d, e);
    Differ(x, c, ab);
    DifferOn(Xor2(ab, x), abc, d, e, 0);
    Differ(x, d, abc);
    Differ(Xor2(abc, x), Xor2(abc, d), e);
    Differ(x, e, Xor2(abc, d));
  }

  /** One changed byte anywhere, the length byte included, makes a frame unacceptable. */
  lemma CorruptedIsRejected(t: FrameType, f: Body, position: nat, value: byte)
    requires position < FRAME_SIZE && Encode(t, f)[position] != value
    ensures Decode(t, Encode(t, f)[position := value]) == None
  {
    hide Checksum, High, Low, Join, Xor5;
    var bad := Encode(t, f)[position := value];
    ChecksumOfFive(bad);
    XorChanges(LENGTH, High(f.sequence.bits), Low(f.sequence.bits), TypeByte(t), f.code, value);
  }

  /** An acknowledgement is never taken for a request, nor the other way round. */
  lemma TypesAreApart(length: byte, t: FrameType, u: FrameType, f: Body)
    requires t != u
    ensures Decode(u, Frame(length, t, f)) == None
  {
    hide Checksum, Xor5, High, Low;
  }
}

/** The nine-byte serial frame: AA 55 03 seqHi seqLo command checksum 0D 0A. */
module SerialFrame {
  import opened WireBytes

  const HEADER1: byte := 0xAA
  const HEADER2: byte := 0x55
  const TAIL1: byte := 0x0D
  const TAIL2: byte := 0x0A
  const PAYLOAD_LENGTH: byte := 3
  const FRAME_SIZE := 9

  datatype WireCommand = Open | Grab | Release | Stop

  datatype Frame = Frame(sequence: bv16, command: WireCommand)

  datatype DecodeError = InvalidHeader | InvalidLength | InvalidTail | ChecksumMismatch | UnknownCommand

  datatype DecodeResult = Decoded(frame: Frame) | Rejected(error: DecodeError)

  function CommandByte(c: WireCommand): byte {
    match c
    case Open => 0x01
    case Grab => 0x02
    case Release => 0x03
    case Stop => 0x04
  }

  predicate IsKnownCommand(b: byte) {
    b == 0x01 || b == 0x02 || b == 0x03 || b == 0x04
  }

  function CommandOf(b: byte): (c: WireCommand)
    requires IsKnownCommand(b)
    ensures CommandByte(c) == b
  {
    if b == 0x01 then Open else if b == 0x02 then Grab else if b == 0x03 then Release else Stop
  }

  function Xor4(a: byte, b: byte, c: byte, d: byte): byte {
    a ^ b ^ c ^ d
  }

  function FrameChecksum(f: Frame): byte {
    Xor4(PAYLOAD_LENGTH, High(f.sequence), Low(f.sequence), CommandByte(f.command))
  }

  /** The wire form, field by field. */
  function Encode(f: Frame): (bytes: seq<byte>)
    ensures |bytes| == FRAME_SIZE
  {
    [HEADER1, HEADER2, PAYLOAD_LENGTH, High(f.sequence), Low(f.sequence), CommandByte(f.command),
     FrameChecksum(f), TAIL1, TAIL2]
  }

  function Decode(bytes: seq<byte>): DecodeResult {
    if |bytes| < 3 then Rejected(InvalidLength)
    else if bytes[0] != HEADER1 || bytes[1] != HEADER2 then Rejected(InvalidHeader)
    else if bytes[2] != PAYLOAD_LENGTH then Rejected(InvalidLength)
    else if |bytes| != FRAME_SIZE then Rejected(InvalidLength)
    else if bytes[7] != TAIL1 || bytes[8] != TAIL2 then Rejected(InvalidTail)
    else if bytes[6] != Checksum(bytes, 2, 6) then Rejected(ChecksumMismatch)
    else if !IsKnownCommand(bytes[5]) then Rejected(UnknownCommand)
    else Decoded(Frame(Join(bytes[3], bytes[4]), CommandOf(bytes[5])))
  }

  lemma ChecksumOfFour(bytes: seq<byte>)
    requires |bytes| >= 6
    ensures Checksum(bytes, 2, 6) == Xor4(bytes[2], bytes[3], bytes[4], bytes[5])
  {
    hide Checksum;
    ChecksumStep(bytes, 2, 2);
    ChecksumStep(bytes, 2, 3);
    ChecksumStep(bytes, 2, 4);
    ChecksumStep(bytes, 2, 5);
    XorZero(bytes[2]);
  }

  lemma DecodeOfEncode(f: Frame)
    ensures Decode(Encode(f)) == Decoded(f)
  {
    hide Checksum, High, Low, Join, Xor4;
    ChecksumOfFour(Encode(f));
    JoinSplit(f.sequence);
    CommandCodes(f.command);
  }

  lemma EncodeOfDecode(bytes: seq<byte>)
    requires Decode(bytes).Decoded?
    ensures Encode(Decode(bytes).frame) == bytes
  {
    hide Checksum, High, Low, Join, Xor4;
    ChecksumOfFour(bytes);
    SplitJoin(bytes[3], bytes[4]);
  }

  /** `decode` accepts exactly the encodings: it returns `f` just for the bytes of `f`. */
  lemma DecodeExact(bytes: seq<byte>, f: Frame)
    ensures Decode(bytes) == Decoded(f) <==> bytes == Encode(f)
  {
    hide Decode, Encode;
    DecodeOfEncode(f);
    if Decode(bytes) == Decoded(f) {
      EncodeOfDecode(bytes);
    }
  }

  lemma CommandCodes(c: WireCommand)
    ensures IsKnownCommand(CommandByte(c)) && CommandOf(CommandByte(c)) == c
  {
  }

  /** The wire form byte by byte: the number high byte first, the four command codes, the checksum. */
  lemma EncodeBytes(f: Frame)
    ensures var b := Encode(f);
      && b[0] == 0xAA && b[1] == 0x55 && b[2] == 0x03
      && BigEndian(b[3], b[4]) == f.sequence
      && b[5] == (match f.command case Open => 0x01 case Grab => 0x02 case Release => 0x03 case Stop => 0x04)
      && b[6] == 0x03 ^ b[3] ^ b[4] ^ b[5]
      && b[7] == 0x0D && b[8] == 0x0A
  {
    HighLow(f.sequence);
    hide High, Low, BigEndian;
  }

  /** Which check rejects which bytes: the first one that fails, in this order. */
  lemma RejectedBecause(b: seq<byte>)
    ensures var headed := |b| >= 3 && b[0] == 0xAA && b[1] == 0x55;
      var sized := headed && b[2] == 0x03 && |b| == 9;
      var tailed := sized && b[7] == 0x0D && b[8] == 0x0A;
      var summed := tailed && b[6] == 0x03 ^ b[3] ^ b[4] ^ b[5];
      && (Decode(b) == Rejected(InvalidHeader) <==> |b| >= 3 && !headed)
      && (Decode(b) == Rejected(InvalidLength) <==> |b| < 3 || (headed && !sized))
      && (Decode(b) == Rejected(InvalidTail) <==> sized && !tailed)
      && (Decode(b) == Rejected(ChecksumMismatch) <==> tailed && !summed)
      && (Decode(b) == Rejected(UnknownCommand) <==> summed && b[5] !in {0x01, 0x02, 0x03, 0x04})
  {
    hide Checksum, Join;
    if |b| >= 6 {
      ChecksumOfFour(b);
    }
  }

  /** One changed byte anywhere makes a frame unacceptable. */
  lemma CorruptedIsRejected(f: Frame, position: nat, value: byte)
    requires position < FRAME_SIZE && Encode(f)[position] != value
    ensures Decode(Encode(f)[position := value]).Rejected?
  {
    hide Checksum, High, Low, Join, CommandByte, IsKnownCommand, Xor4;
    var bad := Encode(f)[position := value];
    ChecksumOfFour(bad);
    XorChanges(bad[2], bad[3], bad[4], bad[5], PAYLOAD_LENGTH, High(f.sequence), Low(f.sequence), CommandByte(f.command));
  }

  lemma XorChanges(a: byte, b: byte, c: byte, d: byte, a': byte, b': byte, c': byte, d': byte)
    ensures a != a' && b == b' && c == c' && d == d' ==> Xor4(a, b, c, d) != Xor4(a', b', c', d')
    ensures a == a' && b != b' && c == c' && d == d' ==> Xor4(a, b, c, d) != Xor4(a', b', c', d')
    ensures a == a' && b == b' && c != c' && d == d' ==> Xor4(a, b, c, d) != Xor4(a', b', c', d')
    ensures a == a' && b == b' && c == c' && d != d' ==> Xor4(a, b, c, d) != Xor4(a', b', c', d')
  {
  }

  /** `encode`, one `push_back` at a time, the checksum over what was pushed so far. */
  method EncodeFrame(f: Frame) returns (bytes: seq<byte>)
    ensures bytes == Encode(f)
  {
    hide Checksum, CommandByte, High, Low, Xor4;
    bytes := [HEADER1] + [HEADER2] + [PAYLOAD_LENGTH];
    bytes := bytes + [High(f.sequence)];
    bytes := bytes + [Low(f.sequence)];
    bytes := bytes + [CommandByte(f.command)];
    assert bytes == [HEADER1, HEADER2, PAYLOAD_LENGTH, High(f.sequence), Low(f.sequence), CommandByte(f.command)];
    var checksum := CalculateChecksum(bytes, 2, |bytes|);
    ChecksumOfFour(bytes);
    bytes := bytes + [checksum];
    bytes := bytes + [TAIL1] + [TAIL2];
  }

  /** `decode`: a rejected input leaves the caller's frame alone. */
  method DecodeFrame(bytes: seq<byte>, frameIn: Frame) returns (ok: bool, frame: Frame, error: DecodeError)
    ensures ok <==> Decode(bytes).Decoded?
    ensures ok ==> Decode(bytes) == Decoded(frame)
    ensures !ok ==> Decode(bytes) == Rejected(error) && frame == frameIn
  {
    frame := frameIn;
    error := InvalidLength;
    if |bytes| < 3 {
      return false, frame, InvalidLength;
    }
    if bytes[0] != HEADER1 || bytes[1] != HEADER2 {
      return false, frame, InvalidHeader;
    }
    var payloadLength := bytes[2];
    if payloadLength != PAYLOAD_LENGTH {
      return false, frame, InvalidLength;
    }
    var expectedSize := payloadLength as nat + 6;
    if |bytes| != expectedSize {
      return false, frame, InvalidLength;
    }
    if bytes[expectedSize - 2] != TAIL1 || bytes[expectedSize - 1] != TAIL2 {
      return false, frame, InvalidTail;
    }
    var checksumIndex := 3 + payloadLength as nat;
    var calculated := CalculateChecksum(bytes, 2, checksumIndex);
    if bytes[checksumIndex] != calculated {
      return false, frame, ChecksumMismatch;
    }
    var commandByte := bytes[5];
    if !IsKnownCommand(commandByte) {
      return false, frame, UnknownCommand;
    }
    frame := Frame(Join(bytes[3], bytes[4]), CommandOf(commandByte));
    ok := true;
  }
}

/** Bytes of the binary links: halves of a 16-bit number and the exclusive-or checksum. */
module WireBytes {

  type byte = bv8

  function High(x: bv16): byte {
    ((x >> 8) & 0xFF) as byte
  }

  function Low(x: bv16): byte {
    (x & 0xFF) as byte
  }

  function Join(hi: byte, lo: byte): bv16 {
    ((hi as bv16) << 8) | (lo as bv16)
  }

  lemma JoinSplit(x: bv16)
    ensures Join(High(x), Low(x)) == x
  {
  }

  lemma SplitJoin(hi: byte, lo: byte)
    ensures High(Join(hi, lo)) == hi && Low(Join(hi, lo)) == lo
  {
  }

  /** The number that two bytes spell, the high byte first. */
  function BigEndian(hi: byte, lo: byte): bv16 {
    (hi as bv16) * 256 + (lo as bv16)
  }

  lemma HighLow(x: bv16)
    ensures BigEndian(High(x), Low(x)) == x
  {
  }

  function Xor(bytes: seq<byte>): byte {
    if bytes == [] then 0 else Xor(bytes[..|bytes| - 1]) ^ bytes[|bytes| - 1]
  }

  lemma XorSnoc(bytes: seq<byte>, b: byte)
    ensures Xor(bytes + [b]) == Xor(bytes) ^ b
  {
    assert (bytes + [b])[..|bytes|] == bytes;
  }

  /** Exclusive-or of a stretch of bytes. */
  function Checksum(bytes: seq<byte>, begin: nat, end: nat): byte
    requires begin <= end <= |bytes|
  {
    Xor(bytes[begin..end])
  }

  lemma ChecksumStep(bytes: seq<byte>, begin: nat, end: nat)
    requires begin <= end <= |bytes|
    ensures Checksum(bytes, begin, begin) == 0
    ensures end < |bytes| ==> Checksum(bytes, begin, end + 1) == Checksum(bytes, begin, end) ^ bytes[end]
  {
    if end < |bytes| {
      XorSnoc(bytes[begin..end], bytes[end]);
      assert bytes[begin..end] + [bytes[end]] == bytes[begin..end + 1];
    }
  }

  lemma XorZero(b: byte)
    ensures 0 ^ b == b
  {
  }

  /** `calculateChecksum`. */
  method CalculateChecksum(bytes: seq<byte>, begin: nat, end: nat) returns (checksum: byte)
    requires begin <= end <= |bytes|
    ensures checksum == Checksum(bytes, begin, end)
  {
    hide Checksum;
    ChecksumStep(bytes, begin, begin);
    checksum := 0;
    for index := begin to end
      invariant checksum == Checksum(bytes, begin, index)
    {
      ChecksumStep(bytes, begin, index);
      checksum := checksum ^ bytes[index];
    }
  }
}

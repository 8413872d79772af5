/** The byte-at-a-time parser of AA 55 type length payload checksum frames. */
module LengthFramer {
  import opened WireBytes

  const MAGIC1: byte := 0xAA
  const MAGIC2: byte := 0x55
  const MAX_PAYLOAD: nat := 16

  datatype ParserState = WaitMagic1 | WaitMagic2 | ReadType | ReadLength | ReadPayload | ReadChecksum

  datatype ProtocolFrame = ProtocolFrame(kind: byte, length: byte, payload: seq<byte>)

  datatype Parser = Parser(state: ParserState, working: ProtocolFrame, index: nat, checksum: byte)

  datatype FeedResult = Waiting | FrameReady | BadLength | BadChecksum

  // ---- What a frame is ----

  function Zeros(n: nat): seq<byte> {
    seq(n, _ => 0)
  }

  /** A frame whose unused payload bytes are zero. */
  predicate WellFormed(f: ProtocolFrame) {
    && |f.payload| == MAX_PAYLOAD
    && f.length as nat <= MAX_PAYLOAD
    && f.payload[f.length as nat..] == Zeros(MAX_PAYLOAD - f.length as nat)
  }

  /** The part of a frame that its checksum covers. */
  function Covered(f: ProtocolFrame): seq<byte>
    requires WellFormed(f)
  {
    [f.kind, f.length] + f.payload[..f.length as nat]
  }

  /** The bytes of a frame on the wire. */
  function Wire(f: ProtocolFrame): seq<byte>
    requires WellFormed(f)
  {
    [MAGIC1, MAGIC2] + Covered(f) + [Xor(Covered(f))]
  }

  // ---- The automaton ----

  const BLANK := ProtocolFrame(0, 0, Zeros(MAX_PAYLOAD))

  function Fresh(): Parser {
    Parser(WaitMagic1, BLANK, 0, 0)
  }

  /** What every reachable parser satisfies; in particular the payload index is always in bounds. */
  predicate ParserOk(p: Parser) {
    && |p.working.payload| == MAX_PAYLOAD
    && (p.state == ReadPayload ==> p.index < p.working.length as nat <= MAX_PAYLOAD)
    && (p.state == ReadChecksum ==> p.index == p.working.length as nat <= MAX_PAYLOAD)
  }

  datatype Fed = Fed(parser: Parser, result: FeedResult, output: seq<ProtocolFrame>)

  function FeedLength(p: Parser, b: byte): (r: Fed)
    requires ParserOk(p) && p.state == ReadLength
    ensures ParserOk(r.parser)
  {
    if b as nat > MAX_PAYLOAD then Fed(Fresh(), BadLength, [])
    else Fed(Parser(if b == 0 then ReadChecksum else ReadPayload, p.working.(length := b), 0, p.checksum ^ b), Waiting, [])
  }

  function FeedPayload(p: Parser, b: byte): (r: Fed)
    requires ParserOk(p) && p.state == ReadPayload
    ensures ParserOk(r.parser)
  {
    var working := p.working.(payload := p.working.payload[p.index := b]);
    var state := if p.index + 1 == p.working.length as nat then ReadChecksum else ReadPayload;
    Fed(Parser(state, working, p.index + 1, p.checksum ^ b), Waiting, [])
  }

  /** `parser_feed_byte`. `output` holds the frame stored through the output pointer, if any. */
  function Feed(p: Parser, b: byte): (r: Fed)
    requires ParserOk(p)
    ensures ParserOk(r.parser)
  {
    match p.state
    case WaitMagic1 => Fed(if b == MAGIC1 then p.(state := WaitMagic2) else p, Waiting, [])
    case WaitMagic2 =>
      Fed(p.(state := if b == MAGIC2 then ReadType else if b == MAGIC1 then WaitMagic2 else WaitMagic1), Waiting, [])
    case ReadType =>
      Fed(Parser(ReadLength, p.working.(kind := b), 0, b), Waiting, [])
    case ReadLength => FeedLength(p, b)
    case ReadPayload => FeedPayload(p, b)
    case ReadChecksum =>
      if b != p.checksum then Fed(Fresh(), BadChecksum, []) else Fed(Fresh(), FrameReady, [p.working])
  }

  lemma PayloadFed(p: Parser, b: byte)
    requires ParserOk(p) && p.state == ReadPayload
    ensures p.index < |p.working.payload| && ParserOk(Feed(p, b).parser)
    ensures Feed(p, b) == Fed(
      Parser(if p.index + 1 == p.working.length as nat then ReadChecksum else ReadPayload,
             p.working.(payload := p.working.payload[p.index := b]), p.index + 1, p.checksum ^ b), Waiting, [])
  {
  }

  datatype Progress = Progress(parser: Parser, frames: seq<ProtocolFrame>)

  function FeedAll(p: Parser, bytes: seq<byte>): (r: Progress)
    requires ParserOk(p)
    ensures ParserOk(r.parser)
    decreases |bytes|
  {
    if bytes == [] then Progress(p, [])
    else
      var first := Feed(p, bytes[0]);
      var rest := FeedAll(first.parser, bytes[1..]);
      Progress(rest.parser, first.output + rest.frames)
  }

  lemma {:induction false} FeedAllConcat(p: Parser, a: seq<byte>, b: seq<byte>)
    requires ParserOk(p)
    ensures var first := FeedAll(p, a);
      FeedAll(p, a + b) == Progress(FeedAll(first.parser, b).parser, first.frames + FeedAll(first.parser, b).frames)
    decreases |a|
  {
    hide Feed, ParserOk;
    if a == [] {
      assert a + b == b;
    } else {
      FeedAllConcat(Feed(p, a[0]).parser, a[1..], b);
      assert (a + b)[1..] == a[1..] + b;
    }
  }

  // ---- Soundness ----

  predicate EndsWith(bytes: seq<byte>, tail: seq<byte>) {
    |tail| <= |bytes| && bytes[|bytes| - |tail|..] == tail
  }

  lemma EndsWithSnoc(bytes: seq<byte>, tail: seq<byte>, b: byte)
    requires EndsWith(bytes, tail)
    ensures EndsWith(bytes + [b], tail + [b])
  {
    var k := |bytes| - |tail|;
    assert (bytes + [b])[k..] == bytes[k..] + [b];
  }

  /** Type, length and the payload bytes stored so far. */
  function Body(p: Parser): seq<byte>
    requires p.index <= |p.working.payload|
  {
    [p.working.kind, p.working.length] + p.working.payload[..p.index]
  }

  /** The stretch of input that the parser has matched so far. */
  function Matched(p: Parser): seq<byte>
    requires ParserOk(p)
  {
    match p.state
    case WaitMagic1 => []
    case WaitMagic2 => [MAGIC1]
    case ReadType => [MAGIC1, MAGIC2]
    case ReadLength => [MAGIC1, MAGIC2, p.working.kind]
    case _ => [MAGIC1, MAGIC2] + Body(p)
  }

  /** The working frame holds what was matched and zeros elsewhere, and the checksum runs along. */
  predicate Tracks(p: Parser) {
    && ParserOk(p)
    && match p.state
       case WaitMagic1 => p == Fresh()
       case WaitMagic2 => p == Fresh().(state := WaitMagic2)
       case ReadType => p == Fresh().(state := ReadType)
       case ReadLength => p == Parser(ReadLength, BLANK.(kind := p.working.kind), 0, p.working.kind)
       case _ =>
         && p.checksum == Xor(Body(p))
         && p.working.payload[p.index..] == Zeros(MAX_PAYLOAD - p.index)
  }

  lemma XorOfTwo(a: byte, b: byte)
    ensures Xor([a, b]) == a ^ b
  {
    assert [a, b] == [] + [a] + [b];
    XorSnoc([], a);
    XorSnoc([] + [a], b);
    XorZero(a);
  }

  lemma LengthStep(p: Parser, b: byte)
    requires Tracks(p) && p.state == ReadLength && b as nat <= MAX_PAYLOAD
    ensures var q := Feed(p, b).parser; Tracks(q) && Matched(q) == Matched(p) + [b]
  {
    var q := Feed(p, b).parser;
    XorOfTwo(p.working.kind, b);
    assert [q.working.kind, b] + q.working.payload[..0] == [q.working.kind, b];
  }

  lemma PayloadStored(payload: seq<byte>, k: nat, b: byte, before: seq<byte>)
    requires k < |payload|
    ensures before + payload[k := b][..k + 1] == before + payload[..k] + [b]
    ensures payload[k := b][k + 1..] == payload[k..][1..]
  {
    assert payload[k := b][..k + 1] == payload[..k] + [b];
  }

  lemma ZerosTail(n: nat)
    requires 0 < n
    ensures Zeros(n)[1..] == Zeros(n - 1)
  {
  }

  lemma PayloadStep(p: Parser, b: byte)
    requires Tracks(p) && p.state == ReadPayload
    ensures var q := Feed(p, b).parser; Tracks(q) && Matched(q) == Matched(p) + [b]
  {
    hide Xor, Zeros, Feed;
    var q := Feed(p, b).parser;
    PayloadFed(p, b);
    BodyGrows(p, b);
    XorSnoc(Body(p), b);
    hide Body;
    assert [MAGIC1, MAGIC2] + (Body(p) + [b]) == [MAGIC1, MAGIC2] + Body(p) + [b];
  }

  lemma BodyGrows(p: Parser, b: byte)
    requires Tracks(p) && p.state == ReadPayload
    ensures var q := Feed(p, b).parser;
      Body(q) == Body(p) + [b] && q.working.payload[q.index..] == Zeros(MAX_PAYLOAD - q.index)
  {
    hide Xor, Zeros, Feed, Matched;
    PayloadFed(p, b);
    PayloadStored(p.working.payload, p.index, b, [p.working.kind, p.working.length]);
    ZerosTail(MAX_PAYLOAD - p.index);
  }

  lemma TracksKept(p: Parser, b: byte)
    requires Tracks(p)
    ensures Tracks(Feed(p, b).parser)
    ensures var q := Feed(p, b).parser;
      Matched(q) == [] || Matched(q) == Matched(p) + [b] || (Matched(q) == [MAGIC1] && b == MAGIC1)
  {
    hide Xor, Zeros;
    match p.state
    case ReadLength =>
      if b as nat <= MAX_PAYLOAD {
        LengthStep(p, b);
      }
    case ReadPayload => PayloadStep(p, b);
    case _ =>
  }

  /** A frame is reported only on its last byte, with everything in place. */
  lemma ReadyIsGenuine(p: Parser, b: byte)
    requires Tracks(p) && Feed(p, b).result == FrameReady
    ensures var f := p.working;
      Feed(p, b).output == [f] && WellFormed(f) && Matched(p) + [b] == Wire(f) && Feed(p, b).parser == Fresh()
  {
    hide Xor, Zeros;
  }

  /** The beginning of some frame that still lacks at least its last byte. */
  predicate Growing(m: seq<byte>) {
    && (|m| >= 1 ==> m[0] == 0xAA)
    && (|m| >= 2 ==> m[1] == 0x55)
    && (|m| >= 4 ==> m[3] as nat <= 16 && |m| <= 4 + m[3] as nat)
  }

  /** Everything but the checksum has been matched. */
  predicate Complete(m: seq<byte>) {
    |m| >= 4 && |m| == 4 + m[3] as nat
  }

  function NextMatched(m: seq<byte>, b: byte): seq<byte> {
    if Growing(m + [b]) then m + [b] else if |m| == 1 && b == 0xAA then [0xAA] else []
  }

  /** The stretch at the end of a stream that may become a frame. */
  function MatchedIn(stream: seq<byte>): seq<byte> {
    if stream == [] then [] else NextMatched(MatchedIn(stream[..|stream| - 1]), stream[|stream| - 1])
  }

  /** The automaton told by the bytes it has matched, without its states, its index and its running
      checksum: when a stretch grows, when it is dropped, and which result each byte has. */
  lemma FeedByMatch(p: Parser, b: byte)
    requires Tracks(p)
    ensures var m, fed := Matched(p), Feed(p, b);
      && Growing(m)
      && Matched(fed.parser) == NextMatched(m, b)
      && (fed.result == BadLength <==> |m| == 3 && b as nat > 16)
      && (fed.result == FrameReady <==> Complete(m) && b == Xor(m[2..]))
      && (fed.result == BadChecksum <==> Complete(m) && b != Xor(m[2..]))
  {
    hide Xor, Zeros;
    match p.state
    case ReadLength => FeedLengthByMatch(p, b);
    case ReadPayload => FeedPayloadByMatch(p, b);
    case ReadChecksum => FeedChecksumByMatch(p, b);
    case _ =>
  }

  lemma FeedLengthByMatch(p: Parser, b: byte)
    requires Tracks(p) && p.state == ReadLength
    ensures var m, fed := Matched(p), Feed(p, b);
      && Growing(m) && |m| == 3
      && Matched(fed.parser) == (if Growing(m + [b]) then m + [b] else [])
      && fed.result == if b as nat > 16 then BadLength else Waiting
  {
    hide Xor, Zeros;
    if b as nat <= MAX_PAYLOAD {
      LengthStep(p, b);
    }
  }

  lemma BodyMatched(p: Parser)
    requires ParserOk(p) && (p.state == ReadPayload || p.state == ReadChecksum)
    ensures var m := Matched(p);
      && |m| == 4 + p.index && m[0] == 0xAA && m[1] == 0x55 && m[3] == p.working.length && m[2..] == Body(p)
  {
  }

  lemma FeedPayloadByMatch(p: Parser, b: byte)
    requires Tracks(p) && p.state == ReadPayload
    ensures var m, fed := Matched(p), Feed(p, b);
      && |m| >= 4 && Growing(m) && !Complete(m)
      && Growing(m + [b]) && Matched(fed.parser) == m + [b] && fed.result == Waiting
  {
    hide Xor, Zeros;
    BodyMatched(p);
    PayloadStep(p, b);
    PayloadFed(p, b);
    hide Feed, Matched, Body;
  }

  lemma FeedChecksumByMatch(p: Parser, b: byte)
    requires Tracks(p) && p.state == ReadChecksum
    ensures var m, fed := Matched(p), Feed(p, b);
      && |m| >= 4 && Growing(m) && Complete(m) && !Growing(m + [b])
      && Matched(fed.parser) == [] && fed.result == if b == Xor(m[2..]) then FrameReady else BadChecksum
  {
    hide Xor, Zeros;
    BodyMatched(p);
  }

  lemma {:induction false} TracksAll(bytes: seq<byte>)
    ensures Tracks(FeedAll(Fresh(), bytes).parser)
    ensures EndsWith(bytes, Matched(FeedAll(Fresh(), bytes).parser))
  {
    hide Feed, Tracks, Matched;
    if bytes == [] {
      StartTracks();
    } else {
      hide FeedAll;
      var init, b := bytes[..|bytes| - 1], bytes[|bytes| - 1];
      TracksAll(init);
      LastByte(init, b);
      assert bytes == init + [b];
      var p := FeedAll(Fresh(), init).parser;
      TracksKept(p, b);
      EndsWithSnoc(init, Matched(p), b);
      assert EndsWith(bytes, []) && EndsWith(bytes, [b]);
    }
  }

  lemma {:induction false} MatchedIsMatchedIn(stream: seq<byte>)
    ensures Matched(FeedAll(Fresh(), stream).parser) == MatchedIn(stream)
  {
    hide Feed, Tracks, Matched, NextMatched;
    if stream == [] {
      StartTracks();
    } else {
      hide FeedAll;
      var init, b := stream[..|stream| - 1], stream[|stream| - 1];
      MatchedIsMatchedIn(init);
      TracksAll(init);
      LastByte(init, b);
      assert stream == init + [b];
      FeedByMatch(FeedAll(Fresh(), init).parser, b);
    }
  }

  /** The result for every byte of every stream, each of the four exactly characterised. */
  lemma ResultIsExact(stream: seq<byte>, b: byte)
    ensures var m, result := MatchedIn(stream), Feed(FeedAll(Fresh(), stream).parser, b).result;
      && (result == BadLength <==> |m| == 3 && b as nat > 16)
      && (result == FrameReady <==> Complete(m) && b == Xor(m[2..]))
      && (result == BadChecksum <==> Complete(m) && b != Xor(m[2..]))
  {
    hide Feed, FeedAll, Matched, Tracks, MatchedIn, Xor;
    TracksAll(stream);
    MatchedIsMatchedIn(stream);
    FeedByMatch(FeedAll(Fresh(), stream).parser, b);
  }

  lemma StartTracks()
    ensures Tracks(Fresh()) && Matched(Fresh()) == []
  {
  }

  lemma LastByte(init: seq<byte>, b: byte)
    ensures var before := FeedAll(Fresh(), init);
      FeedAll(Fresh(), init + [b]) == Progress(Feed(before.parser, b).parser, before.frames + Feed(before.parser, b).output)
  {
    hide Feed;
    FeedAllConcat(Fresh(), init, [b]);
    assert [b][1..] == [];
  }

  /** Soundness over every stream: when the last byte completes a frame, the stream ends with the
      bytes of exactly the frame that was put out, and its unused payload is zero. */
  lemma FramesAreGenuine(stream: seq<byte>, b: byte)
    ensures var p := FeedAll(Fresh(), stream).parser;
      Feed(p, b).result == FrameReady ==>
        exists f :: Feed(p, b).output == [f] && WellFormed(f) && EndsWith(stream + [b], Wire(f))
  {
    hide Feed, Tracks, Matched;
    var p := FeedAll(Fresh(), stream).parser;
    TracksAll(stream);
    if Feed(p, b).result == FrameReady {
      ReadyIsGenuine(p, b);
      EndsWithSnoc(stream, Matched(p), b);
    }
  }

  /** The output is touched exactly when a frame is reported. */
  lemma OutputOnlyWhenReady(p: Parser, b: byte)
    requires ParserOk(p)
    ensures Feed(p, b).output != [] <==> Feed(p, b).result == FrameReady
  {
  }

  // ---- Completeness ----

  /** Hunting for a header with nothing stored. */
  predicate Hunting(p: Parser) {
    p == Fresh() || p == Fresh().(state := WaitMagic2)
  }

  predicate NoHeaderPair(noise: seq<byte>) {
    forall i :: 0 <= i < |noise| - 1 ==> !(noise[i] == MAGIC1 && noise[i + 1] == MAGIC2)
  }

  /** Noise without a header pair delivers nothing; trailing AA bytes do no harm. */
  lemma {:induction false} NoiseIsSkipped(p: Parser, noise: seq<byte>)
    requires Hunting(p) && NoHeaderPair(noise)
    requires p.state == WaitMagic2 && noise != [] ==> noise[0] != MAGIC2
    ensures ParserOk(p) && Hunting(FeedAll(p, noise).parser) && FeedAll(p, noise).frames == []
    decreases |noise|
  {
    if noise != [] {
      var q := Feed(p, noise[0]).parser;
      assert Hunting(q) && (q.state == WaitMagic2 ==> noise[0] == MAGIC1);
      forall i | 0 <= i < |noise[1..]| - 1
        ensures !(noise[1..][i] == MAGIC1 && noise[1..][i + 1] == MAGIC2)
      {
        assert noise[1..][i] == noise[i + 1];
      }
      NoiseIsSkipped(q, noise[1..]);
    }
  }

  lemma PayloadOfFrame(p: Parser, f: ProtocolFrame)
    requires Tracks(p) && WellFormed(f) && p.state == ReadPayload && p.working.length == f.length
    requires p.working.payload[..p.index] == f.payload[..p.index]
    ensures var fed := Feed(p, f.payload[p.index]);
      && fed.output == [] && Tracks(fed.parser) && fed.parser.index == p.index + 1
      && (fed.parser.state == ReadPayload || fed.parser.state == ReadChecksum)
      && fed.parser.working.kind == p.working.kind && fed.parser.working.length == f.length
      && fed.parser.working.payload[..p.index + 1] == f.payload[..p.index + 1]
  {
    hide Feed, Matched, Zeros, Xor;
    var k, b := p.index, f.payload[p.index];
    PayloadFed(p, b);
    PayloadStored(p.working.payload, k, b, []);
    assert f.payload[..k + 1] == f.payload[..k] + [b];
    PayloadStep(p, b);
  }

  /** While a payload is being read, its remaining bytes and the checksum complete the frame. */
  lemma {:induction false} RestOfFrame(p: Parser, f: ProtocolFrame)
    requires Tracks(p) && WellFormed(f) && (p.state == ReadPayload || p.state == ReadChecksum)
    requires p.working.kind == f.kind && p.working.length == f.length
    requires p.working.payload[..p.index] == f.payload[..p.index]
    ensures FeedAll(p, f.payload[p.index..f.length as nat] + [Xor(Covered(f))]) == Progress(Fresh(), [f])
    decreases MAX_PAYLOAD - p.index
  {
    hide Xor, Zeros, FeedAll;
    var last := [Xor(Covered(f))];
    if p.state == ReadChecksum {
      ChecksumEnds(p, f);
      assert f.payload[p.index..f.length as nat] + last == last;
    } else {
      var k, b := p.index, f.payload[p.index];
      var q := Feed(p, b).parser;
      PayloadOfFrame(p, f);
      FeedOne(p, b, f.payload[k + 1..f.length as nat] + last);
      hide Feed, Tracks, Covered;
      assert f.payload[k..f.length as nat] + last == [b] + (f.payload[k + 1..f.length as nat] + last);
      RestOfFrame(q, f);
    }
  }

  lemma SameFrame(a: ProtocolFrame, b: ProtocolFrame, k: nat)
    requires |a.payload| == |b.payload| == MAX_PAYLOAD && k <= MAX_PAYLOAD
    requires a.kind == b.kind && a.length == b.length && a.payload[..k] == b.payload[..k] && a.payload[k..] == b.payload[k..]
    ensures a == b
  {
    assert a.payload == a.payload[..k] + a.payload[k..];
    assert b.payload == b.payload[..k] + b.payload[k..];
  }

  lemma ChecksumEnds(p: Parser, f: ProtocolFrame)
    requires Tracks(p) && WellFormed(f) && p.state == ReadChecksum
    requires p.working.kind == f.kind && p.working.length == f.length
    requires p.working.payload[..p.index] == f.payload[..p.index]
    ensures FeedAll(p, [Xor(Covered(f))]) == Progress(Fresh(), [f])
  {
    hide Xor, Zeros;
    SameFrame(p.working, f, p.index);
    assert [Xor(Covered(f))][1..] == [];
  }

  lemma FeedOne(p: Parser, b: byte, rest: seq<byte>)
    requires ParserOk(p)
    ensures FeedAll(p, [b] + rest) ==
      Progress(FeedAll(Feed(p, b).parser, rest).parser, Feed(p, b).output + FeedAll(Feed(p, b).parser, rest).frames)
  {
    assert ([b] + rest)[1..] == rest;
  }

  lemma HeaderOfFrame(p: Parser, kind: byte, rest: seq<byte>)
    requires Hunting(p)
    ensures ParserOk(p)
    ensures var q := Parser(ReadLength, BLANK.(kind := kind), 0, kind);
      ParserOk(q) && FeedAll(p, [MAGIC1] + ([MAGIC2] + ([kind] + rest))) == FeedAll(q, rest)
  {
    var p1 := Fresh().(state := WaitMagic2);
    var p2 := Fresh().(state := ReadType);
    FeedOne(p, MAGIC1, [MAGIC2] + ([kind] + rest));
    FeedOne(p1, MAGIC2, [kind] + rest);
    FeedOne(p2, kind, rest);
    hide FeedAll;
    assert Feed(p, MAGIC1) == Fed(p1, Waiting, []);
    assert Feed(p1, MAGIC2) == Fed(p2, Waiting, []);
  }

  /** A frame right after any hunt is delivered, and the parser is as new. */
  lemma FrameIsDelivered(p: Parser, f: ProtocolFrame)
    requires Hunting(p) && WellFormed(f)
    ensures ParserOk(p) && FeedAll(p, Wire(f)) == Progress(Fresh(), [f])
  {
    var rest := f.payload[..f.length as nat] + [Xor(Covered(f))];
    HeaderOfFrame(p, f.kind, [f.length] + rest);
    var q := Parser(ReadLength, BLANK.(kind := f.kind), 0, f.kind);
    FeedOne(q, f.length, rest);
    LengthStep(q, f.length);
    var body := Feed(q, f.length).parser;
    BodyStarts(q, f);
    RestOfFrame(body, f);
    assert f.payload[0..f.length as nat] == f.payload[..f.length as nat];
    WireParts(f);
  }

  lemma BodyStarts(q: Parser, f: ProtocolFrame)
    requires WellFormed(f) && q == Parser(ReadLength, BLANK.(kind := f.kind), 0, f.kind)
    ensures var r := Feed(q, f.length);
      && r.output == [] && r.parser.index == 0
      && (r.parser.state == ReadPayload || r.parser.state == ReadChecksum)
      && r.parser.working.kind == f.kind && r.parser.working.length == f.length
      && r.parser.working.payload[..0] == f.payload[..0]
  {
  }

  lemma WireParts(f: ProtocolFrame)
    requires WellFormed(f)
    ensures Wire(f) ==
      [MAGIC1] + ([MAGIC2] + ([f.kind] + ([f.length] + (f.payload[..f.length as nat] + [Xor(Covered(f))]))))
  {
    hide Xor;
  }

  /** Frames with noise before, between and after them. */
  function Mixed(noise: seq<seq<byte>>, frames: seq<ProtocolFrame>): seq<byte>
    requires |noise| == |frames| + 1
    requires forall i :: 0 <= i < |frames| ==> WellFormed(frames[i])
    decreases |frames|
  {
    noise[0] + if frames == [] then [] else Wire(frames[0]) + Mixed(noise[1..], frames[1..])
  }

  /** Completeness: noise that contains no header pair, anywhere between frames, costs nothing;
      exactly the frames come out, in order. */
  lemma {:induction false} FramesSurviveNoise(noise: seq<seq<byte>>, frames: seq<ProtocolFrame>)
    requires |noise| == |frames| + 1
    requires forall i :: 0 <= i < |frames| ==> WellFormed(frames[i])
    requires forall i :: 0 <= i < |noise| ==> NoHeaderPair(noise[i])
    ensures FeedAll(Fresh(), Mixed(noise, frames)).frames == frames
    decreases |frames|
  {
    hide Feed, Wire, WellFormed, NoHeaderPair;
    NoiseIsSkipped(Fresh(), noise[0]);
    var hunting := FeedAll(Fresh(), noise[0]).parser;
    if frames == [] {
      assert noise[0] + [] == noise[0];
    } else {
      var rest := Mixed(noise[1..], frames[1..]);
      FeedAllConcat(Fresh(), noise[0], Wire(frames[0]) + rest);
      FrameIsDelivered(hunting, frames[0]);
      FeedAllConcat(hunting, Wire(frames[0]), rest);
      FramesSurviveNoise(noise[1..], frames[1..]);
    }
  }

  // ---- The frames of a whole stream ----

  /** The stream is these frames on the wire, in order and without overlap, with gaps around them. */
  ghost predicate Spells(stream: seq<byte>, frames: seq<ProtocolFrame>) {
    && (forall i :: 0 <= i < |frames| ==> WellFormed(frames[i]))
    && exists gaps: seq<seq<byte>> :: |gaps| == |frames| + 1 && stream == Mixed(gaps, frames)
  }

  lemma {:induction false} LongerGap(gaps: seq<seq<byte>>, frames: seq<ProtocolFrame>, more: seq<byte>)
    requires |gaps| == |frames| + 1
    requires forall i :: 0 <= i < |frames| ==> WellFormed(frames[i])
    ensures Mixed(gaps[|frames| := gaps[|frames|] + more], frames) == Mixed(gaps, frames) + more
    decreases |frames|
  {
    hide Wire, WellFormed;
    if frames != [] {
      LongerGap(gaps[1..], frames[1..], more);
      assert gaps[|frames| := gaps[|frames|] + more][1..] == gaps[1..][|frames| - 1 := gaps[|frames|] + more];
    }
  }

  lemma {:induction false} OneMoreFrame(gaps: seq<seq<byte>>, frames: seq<ProtocolFrame>, f: ProtocolFrame)
    requires |gaps| == |frames| + 1 && WellFormed(f)
    requires forall i :: 0 <= i < |frames| ==> WellFormed(frames[i])
    ensures Mixed(gaps + [[]], frames + [f]) == Mixed(gaps, frames) + Wire(f)
    decreases |frames|
  {
    hide Wire, WellFormed;
    assert (gaps + [[]])[1..] == gaps[1..] + [[]];
    if frames == [] {
      assert (frames + [f])[1..] == [];
      assert Mixed((gaps + [[]])[1..], []) == [];
      assert Wire(f) + [] == Wire(f) && gaps[0] + [] == gaps[0];
    } else {
      OneMoreFrame(gaps[1..], frames[1..], f);
      assert (frames + [f])[1..] == frames[1..] + [f];
    }
  }

  lemma SpellsLonger(stream: seq<byte>, frames: seq<ProtocolFrame>, more: seq<byte>)
    requires Spells(stream, frames)
    ensures Spells(stream + more, frames)
  {
    hide WellFormed, Mixed;
    var gaps :| |gaps| == |frames| + 1 && stream == Mixed(gaps, frames);
    LongerGap(gaps, frames, more);
  }

  lemma SpellsFrame(stream: seq<byte>, frames: seq<ProtocolFrame>, f: ProtocolFrame)
    requires Spells(stream, frames) && WellFormed(f)
    ensures Spells(stream + Wire(f), frames + [f])
  {
    hide WellFormed, Mixed, Wire;
    var gaps :| |gaps| == |frames| + 1 && stream == Mixed(gaps, frames);
    OneMoreFrame(gaps, frames, f);
  }

  lemma NothingSpelled()
    ensures SpelledBefore([], Progress(Fresh(), []))
  {
    StartTracks();
    hide Tracks, Matched;
    assert Mixed([[]], []) == [];
  }

  /** Soundness of the whole output: every stream is made of exactly the frames delivered from it,
      in order and from separate stretches, with gaps before, between and after them. */
  lemma FramesAreDisjoint(stream: seq<byte>)
    ensures Spells(stream, FeedAll(Fresh(), stream).frames)
  {
    hide Spells, FeedAll, Matched;
    SpelledAll(stream);
    var k := |stream| - |Matched(FeedAll(Fresh(), stream).parser)|;
    SpellsLonger(stream[..k], FeedAll(Fresh(), stream).frames, stream[k..]);
    assert stream[..k] + stream[k..] == stream;
  }

  /** The bytes before the stretch being matched are made of the frames delivered so far. */
  ghost predicate SpelledBefore(bytes: seq<byte>, r: Progress) {
    && Tracks(r.parser) && EndsWith(bytes, Matched(r.parser))
    && Spells(bytes[..|bytes| - |Matched(r.parser)|], r.frames)
  }

  lemma {:induction false} SpelledAll(bytes: seq<byte>)
    ensures SpelledBefore(bytes, FeedAll(Fresh(), bytes))
  {
    hide SpelledBefore, Feed;
    if bytes == [] {
      NothingSpelled();
    } else {
      hide FeedAll;
      var init, b := bytes[..|bytes| - 1], bytes[|bytes| - 1];
      SpelledAll(init);
      LastByte(init, b);
      assert bytes == init + [b];
      OneByteSpelled(init, FeedAll(Fresh(), init), b);
    }
  }

  lemma OneByteSpelled(init: seq<byte>, before: Progress, b: byte)
    requires ParserOk(before.parser) && SpelledBefore(init, before)
    ensures SpelledBefore(init + [b], Progress(Feed(before.parser, b).parser, before.frames + Feed(before.parser, b).output))
  {
    hide Spells, Feed, Tracks, Wire, WellFormed, ParserOk;
    var p, bytes := before.parser, init + [b];
    var q, frames := Feed(p, b).parser, before.frames + Feed(p, b).output;
    var prefix := init[..|init| - |Matched(p)|];
    TracksKept(p, b);
    hide Matched;
    EndsWithSnoc(init, Matched(p), b);
    assert EndsWith(bytes, []) && EndsWith(bytes, [b]);
    if Feed(p, b).result == FrameReady {
      ReadyIsGenuine(p, b);
      StartTracks();
      SpellsFrame(prefix, before.frames, p.working);
      assert bytes == prefix + (Matched(p) + [b]);
      assert bytes[..|bytes|] == bytes;
    } else {
      OutputOnlyWhenReady(p, b);
      var k := |bytes| - |Matched(q)|;
      SpellsLonger(prefix, before.frames, bytes[|prefix|..k]);
      assert prefix + bytes[|prefix|..k] == bytes[..k];
      assert frames == before.frames;
    }
  }

  // ---- Recovery ----

  /** Bytes until the parser is certain to hunt again, once a header was matched. */
  function Remaining(p: Parser): nat
    requires ParserOk(p)
  {
    match p.state
    case WaitMagic1 => 0
    case WaitMagic2 => 0
    case ReadType => 19
    case ReadLength => 18
    case ReadPayload => p.working.length as nat - p.index + 1
    case ReadChecksum => 1
  }

  lemma RemainingShrinks(p: Parser, b: byte)
    requires ParserOk(p) && p.state != WaitMagic1 && p.state != WaitMagic2
    ensures Feed(p, b).parser.state == WaitMagic1 || 0 < Remaining(Feed(p, b).parser) < Remaining(p)
  {
  }

  /** Whatever bytes follow a matched header, within 19 of them the parser hunts from the start again. */
  lemma {:induction false} HuntsAgainSoon(p: Parser, bytes: seq<byte>)
    requires ParserOk(p) && p.state != WaitMagic1 && p.state != WaitMagic2 && |bytes| >= Remaining(p)
    ensures Remaining(p) <= 19
    ensures exists k :: 0 < k <= Remaining(p) && k <= |bytes| && FeedAll(p, bytes[..k]).parser.state == WaitMagic1
    decreases |bytes|
  {
    hide Feed, ParserOk;
    RemainingBound(p);
    RemainingShrinks(p, bytes[0]);
    var q := Feed(p, bytes[0]).parser;
    if q.state == WaitMagic1 {
      assert bytes[..1][1..] == [];
      assert FeedAll(p, bytes[..1]).parser.state == WaitMagic1;
    } else {
      RemainingHunting(q);
      HuntsAgainSoon(q, bytes[1..]);
      var k :| 0 < k <= Remaining(q) && k <= |bytes[1..]| && FeedAll(q, bytes[1..][..k]).parser.state == WaitMagic1;
      assert bytes[..k + 1][1..] == bytes[1..][..k];
      assert FeedAll(p, bytes[..k + 1]).parser.state == WaitMagic1;
    }
  }

  lemma RemainingBound(p: Parser)
    requires ParserOk(p)
    ensures Remaining(p) <= 19 && (p.state != WaitMagic1 && p.state != WaitMagic2 ==> Remaining(p) > 0)
  {
  }

  lemma RemainingHunting(p: Parser)
    requires ParserOk(p) && Remaining(p) > 0
    ensures p.state != WaitMagic1 && p.state != WaitMagic2
  {
  }

  // ---- The struct ----

  class FrameParser {
    var state: ParserState
    var kind: byte
    var length: byte
    const payload: array<byte>
    var payloadIndex: nat
    var calculatedChecksum: byte

    ghost function Model(): Parser
      reads this, payload
    {
      Parser(state, ProtocolFrame(kind, length, payload[..]), payloadIndex, calculatedChecksum)
    }

    ghost predicate Valid()
      reads this, payload
    {
      payload.Length == MAX_PAYLOAD && ParserOk(Model())
    }

    constructor ()
      ensures Valid() && fresh(payload) && Model() == Fresh()
    {
      state, kind, length, payloadIndex, calculatedChecksum := WaitMagic1, 0, 0, 0, 0;
      payload := new byte[MAX_PAYLOAD](_ => 0);
      new;
      assert payload[..] == Zeros(MAX_PAYLOAD);
    }

    /** `parser_init`: `memset` and the first state. */
    method Reset()
      requires payload.Length == MAX_PAYLOAD
      modifies this, payload
      ensures Valid() && Model() == Fresh()
    {
      forall i | 0 <= i < payload.Length { payload[i] := 0; }
      state, kind, length, payloadIndex, calculatedChecksum := WaitMagic1, 0, 0, 0, 0;
      assert payload[..] == Zeros(MAX_PAYLOAD);
    }

    method HeaderByte(b: byte)
      requires Valid() && (state == WaitMagic1 || state == WaitMagic2 || state == ReadType)
      modifies this
      ensures Valid() && Model() == Feed(old(Model()), b).parser && Feed(old(Model()), b).result == Waiting
    {
      if state == WaitMagic1 {
        if b == MAGIC1 {
          state := WaitMagic2;
        }
      } else if state == WaitMagic2 {
        if b == MAGIC2 {
          state := ReadType;
        } else if b == MAGIC1 {
          state := WaitMagic2;
        } else {
          state := WaitMagic1;
        }
      } else {
        kind := b;
        calculatedChecksum := b;
        payloadIndex := 0;
        state := ReadLength;
      }
    }

    method LengthByte(b: byte) returns (result: FeedResult)
      requires Valid() && state == ReadLength
      modifies this, payload
      ensures Valid() && Model() == Feed(old(Model()), b).parser && result == Feed(old(Model()), b).result
      ensures result != FrameReady
    {
      if b as nat > MAX_PAYLOAD {
        Reset();
        return BadLength;
      }
      length := b;
      calculatedChecksum := calculatedChecksum ^ b;
      payloadIndex := 0;
      state := if b == 0 then ReadChecksum else ReadPayload;
      return Waiting;
    }

    method StoreByte(b: byte)
      requires payloadIndex < payload.Length
      modifies `calculatedChecksum, `payloadIndex, payload
      ensures payload[..] == old(payload[..])[old(payloadIndex) := b]
      ensures payloadIndex == old(payloadIndex) + 1 && calculatedChecksum == old(calculatedChecksum) ^ b
    {
      payload[payloadIndex] := b;
      calculatedChecksum := calculatedChecksum ^ b;
      payloadIndex := payloadIndex + 1;
    }

    method PayloadByte(b: byte)
      requires Valid() && state == ReadPayload
      modifies this, payload
      ensures Valid() && Model() == Feed(old(Model()), b).parser && Feed(old(Model()), b).result == Waiting
    {
      ghost var before := Model();
      var bound := length as nat;
      PayloadFed(before, b);
      hide Feed, ParserOk;
      StoreByte(b);
      if payloadIndex == bound {
        state := ReadChecksum;
      }
      assert Model() == Feed(before, b).parser;
    }

    /** `parser_feed_byte`; the caller's frame changes only when one is ready. */
    method FeedByte(b: byte, outputIn: ProtocolFrame) returns (result: FeedResult, output: ProtocolFrame)
      requires Valid()
      modifies this, payload
      ensures Valid() && Model() == Feed(old(Model()), b).parser && result == Feed(old(Model()), b).result
      ensures output == if result == FrameReady then old(Model()).working else outputIn
    {
      hide FeedLength, FeedPayload, Zeros;
      output, result := outputIn, Waiting;
      match state {
        case ReadLength => result := LengthByte(b);
        case ReadPayload => PayloadByte(b);
        case ReadChecksum =>
          if b != calculatedChecksum {
            Reset();
            return BadChecksum, output;
          }
          output := ProtocolFrame(kind, length, payload[..]);
          Reset();
          result := FrameReady;
        case _ => HeaderByte(b);
      }
    }
  }
}

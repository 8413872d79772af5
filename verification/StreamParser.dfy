/** The resynchronising parser over a growing buffer, and the declarative meaning of its output. */
module StreamParsers {
  import opened Basics
  import opened WireBytes
  import opened SerialFrame

  // ---- What a stream means ----

  predicate AcceptsAt(s: seq<byte>, p: nat) {
    p + FRAME_SIZE <= |s| && Decode(s[p..p + FRAME_SIZE]).Decoded?
  }

  /** The frames at all positions whose nine-byte window decodes, in order. Nothing is skipped. */
  function Scan(s: seq<byte>): seq<Frame> {
    if |s| < FRAME_SIZE then []
    else (if AcceptsAt(s, 0) then [Decode(s[..FRAME_SIZE]).frame] else []) + Scan(s[1..])
  }

  /** A window that decodes or fails only for its command byte. */
  predicate ShapedAt(s: seq<byte>, p: nat) {
    && p + FRAME_SIZE <= |s|
    && (Decode(s[p..p + FRAME_SIZE]).Decoded? || Decode(s[p..p + FRAME_SIZE]) == Rejected(UnknownCommand))
  }

  lemma ShapeOf(s: seq<byte>, p: nat)
    requires ShapedAt(s, p)
    ensures s[p] == HEADER1 && s[p + 1] == HEADER2 && s[p + 2] == PAYLOAD_LENGTH && s[p + 7] == TAIL1 && s[p + 8] == TAIL2
    ensures AcceptsAt(s, p) <==> IsKnownCommand(s[p + 5])
  {
    hide Checksum, Join;
    var w := s[p..p + FRAME_SIZE];
    assert forall k :: 0 <= k < FRAME_SIZE ==> w[k] == s[p + k];
  }

  /** The known-command check is what keeps windows apart: without it two windows can overlap, but
      only three or four bytes apart and with 0x0A or 0x55 as the command of the later or earlier one. */
  lemma OverlapNeedsUnknownCommand(s: seq<byte>, p: nat, q: nat)
    requires ShapedAt(s, p) && ShapedAt(s, q) && p < q < p + FRAME_SIZE
    ensures (q == p + 3 && s[q + 5] == 0x0A && !AcceptsAt(s, q)) || (q == p + 4 && s[p + 5] == 0x55 && !AcceptsAt(s, p))
  {
    hide ShapedAt, AcceptsAt;
    ShapeOf(s, p);
    ShapeOf(s, q);
    assert q in {p + 1, p + 2, p + 3, p + 4, p + 5, p + 6, p + 7, p + 8};
  }

  /** Two accepted windows never overlap. */
  lemma WindowsDoNotOverlap(s: seq<byte>, p: nat, q: nat)
    requires AcceptsAt(s, p) && AcceptsAt(s, q) && p < q
    ensures q >= p + FRAME_SIZE
  {
    hide Decode;
    if q < p + FRAME_SIZE {
      OverlapNeedsUnknownCommand(s, p, q);
    }
  }

  /** Both overlaps occur. */
  lemma OverlapsOccur()
    ensures var s: seq<byte> := [0xAA, 0x55, 0x03, 0xAA, 0x55, 0x03, 0xFF, 0x0D, 0x0A, 0xFB, 0x0D, 0x0A];
      AcceptsAt(s, 0) && ShapedAt(s, 3)
    ensures var s: seq<byte> := [0xAA, 0x55, 0x03, 0xFF, 0xAA, 0x55, 0x03, 0x0D, 0x0A, 0x01, 0x05, 0x0D, 0x0A];
      ShapedAt(s, 0) && AcceptsAt(s, 4)
  {
    hide Checksum, Join;
    var s: seq<byte> := [0xAA, 0x55, 0x03, 0xAA, 0x55, 0x03, 0xFF, 0x0D, 0x0A, 0xFB, 0x0D, 0x0A];
    ChecksumOfFour(s[0..9]);
    ChecksumOfFour(s[3..12]);
    var t: seq<byte> := [0xAA, 0x55, 0x03, 0xFF, 0xAA, 0x55, 0x03, 0x0D, 0x0A, 0x01, 0x05, 0x0D, 0x0A];
    ChecksumOfFour(t[0..9]);
    ChecksumOfFour(t[4..13]);
  }

  lemma {:induction false} SkipRejected(s: seq<byte>, k: nat)
    requires k <= |s| && forall p :: 0 <= p < k ==> !AcceptsAt(s, p)
    ensures Scan(s) == Scan(s[k..])
  {
    if k == 0 {
      assert s[0..] == s;
    } else if |s| >= FRAME_SIZE {
      forall p | 0 <= p < k - 1 ensures !AcceptsAt(s[1..], p) { ShiftAccepts(s, 1, p); }
      SkipRejected(s[1..], k - 1);
      assert !AcceptsAt(s, 0);
      assert s[1..][k - 1..] == s[k..];
    }
  }

  lemma ShiftAccepts(s: seq<byte>, k: nat, p: nat)
    requires k <= |s|
    ensures AcceptsAt(s[k..], p) <==> AcceptsAt(s, k + p)
  {
    if k + p + FRAME_SIZE <= |s| {
      assert s[k..][p..p + FRAME_SIZE] == s[k + p..k + p + FRAME_SIZE];
    }
  }

  /** After an accepted window the scan goes on behind it. */
  lemma ScanAccepted(s: seq<byte>)
    requires AcceptsAt(s, 0)
    ensures Scan(s) == [Decode(s[..FRAME_SIZE]).frame] + Scan(s[FRAME_SIZE..])
  {
    hide Decode, Scan;
    forall p | 0 <= p < 8
      ensures !AcceptsAt(s[1..], p)
    {
      ShiftAccepts(s, 1, p);
      if AcceptsAt(s, p + 1) {
        WindowsDoNotOverlap(s, 0, p + 1);
      }
    }
    SkipRejected(s[1..], 8);
    assert s[1..][8..] == s[FRAME_SIZE..];
    ScanStep(s);
  }

  lemma ScanStep(s: seq<byte>)
    requires |s| >= FRAME_SIZE
    ensures Scan(s) == (if AcceptsAt(s, 0) then [Decode(s[..FRAME_SIZE]).frame] else []) + Scan(s[1..])
  {
  }

  // ---- The parser's loop ----

  /** Index of the first header pair, or the length when there is none. */
  function FindHeader(b: seq<byte>): (h: nat)
    ensures h <= |b|
    ensures h < |b| ==> h + 1 < |b| && b[h] == HEADER1 && b[h + 1] == HEADER2
  {
    if |b| < 2 then |b|
    else if b[0] == HEADER1 && b[1] == HEADER2 then 0
    else 1 + FindHeader(b[1..])
  }

  /** One turn of the loop: leave it, drop bytes, or emit a frame; always with the buffer it leaves. */
  datatype Turn = Stop(rest: seq<byte>) | Drop(rest: seq<byte>) | Emit(frame: Frame, rest: seq<byte>)

  /** The decision once a header is at the front of the buffer. */
  function AtHeader(c: seq<byte>): (t: Turn)
    requires |c| >= 2
    ensures !t.Stop? ==> |t.rest| < |c|
  {
    if |c| < 3 then Turn.Stop(c)
    else if c[2] != PAYLOAD_LENGTH then Drop(c[1..])
    else if |c| < FRAME_SIZE then Turn.Stop(c)
    else
      match Decode(c[..FRAME_SIZE])
      case Decoded(frame) => Emit(frame, c[FRAME_SIZE..])
      case Rejected(_) => Drop(c[1..])
  }

  /** What survives of a buffer without header: a last byte that may start one. */
  function HeaderStart(b: seq<byte>): seq<byte>
    requires b != []
  {
    if b[|b| - 1] == HEADER1 then [HEADER1] else []
  }

  function TurnOf(b: seq<byte>): (t: Turn)
    ensures !t.Stop? ==> |t.rest| < |b|
  {
    if |b| < 2 then Turn.Stop(b)
    else
      var h := FindHeader(b);
      if h == |b| then Turn.Stop(HeaderStart(b)) else AtHeader(b[h..])
  }

  datatype Extraction = Extraction(frames: seq<Frame>, rest: seq<byte>)

  function Extract(b: seq<byte>): Extraction
    decreases |b|
  {
    match TurnOf(b)
    case Stop(rest) => Extraction([], rest)
    case Drop(rest) => Extract(rest)
    case Emit(frame, rest) =>
      var more := Extract(rest);
      Extraction([frame] + more.frames, more.rest)
  }

  // ---- Exactness ----

  lemma {:induction false} NothingBeforeHeader(b: seq<byte>, p: nat)
    requires p < FindHeader(b)
    ensures !AcceptsAt(b, p)
  {
    if p > 0 {
      NothingBeforeHeader(b[1..], p - 1);
      ShiftAccepts(b, 1, p - 1);
    } else if AcceptsAt(b, 0) {
      ShapeOf(b, 0);
    }
  }

  lemma ScanFromHeader(b: seq<byte>)
    ensures Scan(b) == Scan(b[FindHeader(b)..])
  {
    forall p | 0 <= p < FindHeader(b) ensures !AcceptsAt(b, p) { NothingBeforeHeader(b, p); }
    SkipRejected(b, FindHeader(b));
  }

  lemma ScanAtHeader(c: seq<byte>)
    requires |c| >= 2
    ensures match AtHeader(c)
      case Stop(rest) => Scan(c) == [] && |rest| < FRAME_SIZE
      case Drop(rest) => Scan(c) == Scan(rest)
      case Emit(frame, rest) => Scan(c) == [frame] + Scan(rest)
  {
    hide Decode, Scan;
    if |c| < FRAME_SIZE {
      ScanShort(c);
      if |c| >= 3 { ScanShort(c[1..]); }
    } else if AcceptsAt(c, 0) {
      ShapeOf(c, 0);
      ScanAccepted(c);
    } else {
      ScanStep(c);
    }
  }

  lemma ScanShort(c: seq<byte>)
    requires |c| < FRAME_SIZE
    ensures Scan(c) == []
  {
  }

  /** One call of `extractFrames` yields exactly the frames of the buffer and keeps at most eight bytes. */
  lemma {:induction false} ExtractExact(b: seq<byte>)
    ensures Extract(b).frames == Scan(b) && |Extract(b).rest| <= 8
    decreases |b|
  {
    hide Scan, AtHeader, FindHeader;
    if |b| < 2 {
      ScanShort(b);
    } else {
      ScanFromHeader(b);
      var h := FindHeader(b);
      if h == |b| {
        ScanShort([]);
        assert b[h..] == [];
      } else {
        ScanAtHeader(b[h..]);
        match AtHeader(b[h..])
        case Stop(_) =>
        case Drop(rest) => ExtractExact(rest);
        case Emit(_, rest) => ExtractExact(rest);
      }
    }
  }

  // ---- Chunk independence ----

  /** A lone byte that starts no header is as good as an empty buffer. */
  function Norm(rest: seq<byte>): seq<byte> {
    if |rest| == 1 && rest[0] != HEADER1 then [] else rest
  }

  ghost predicate SameAfter(whole: Extraction, frames: seq<Frame>, tail: Extraction) {
    whole.frames == frames + tail.frames && Norm(whole.rest) == Norm(tail.rest)
  }

  /** Bytes without a header pair, up to and including the first byte behind them, can be skipped. */
  lemma {:induction false} FindHeaderSkip(front: seq<byte>, back: seq<byte>)
    requires back != []
    requires FindHeader(front + [back[0]]) == |front| + 1
    ensures FindHeader(front + back) == |front| + FindHeader(back)
  {
    if front == [] {
      assert front + back == back;
    } else {
      assert (front + [back[0]])[1..] == front[1..] + [back[0]];
      assert (front + back)[1..] == front[1..] + back;
      FindHeaderSkip(front[1..], back);
      assert (front + back)[0] == (front + [back[0]])[0] && (front + back)[1] == (front + [back[0]])[1];
    }
  }

  lemma {:induction false} FindHeaderFound(b: seq<byte>, x: seq<byte>)
    requires FindHeader(b) < |b|
    ensures FindHeader(b + x) == FindHeader(b)
  {
    assert (b + x)[0] == b[0] && (b + x)[1] == b[1];
    if !(b[0] == HEADER1 && b[1] == HEADER2) {
      assert (b + x)[1..] == b[1..] + x;
      FindHeaderFound(b[1..], x);
    }
  }

  lemma HeaderFirst(c: seq<byte>)
    requires |c| >= 2 && c[0] == HEADER1 && c[1] == HEADER2
    ensures FindHeader(c) == 0
  {
  }

  lemma AtHeaderAppend(c: seq<byte>, x: seq<byte>)
    requires |c| >= 2
    ensures var t := AtHeader(c);
      && (t.Stop? ==> t.rest == c)
      && (t.Drop? ==> AtHeader(c + x) == Drop(t.rest + x))
      && (t.Emit? ==> AtHeader(c + x) == Emit(t.frame, t.rest + x))
  {
    hide Decode;
    assert (c + x)[1..] == c[1..] + x;
    if |c| >= FRAME_SIZE {
      assert (c + x)[..FRAME_SIZE] == c[..FRAME_SIZE];
      assert (c + x)[FRAME_SIZE..] == c[FRAME_SIZE..] + x;
    }
  }

  /** A buffer without header, then more bytes: only its last byte can matter. */
  lemma NoHeaderAppend(b: seq<byte>, x: seq<byte>)
    requires |b| >= 2 && FindHeader(b) == |b| && x != []
    ensures SameAfter(Extract(b + x), [], Extract(HeaderStart(b) + x))
  {
    hide Extract, AtHeader, FindHeader;
    var front, last := b[..|b| - 1], b[|b| - 1];
    var back := [last] + x;
    assert front + [last] == b && front + back == b + x;
    FindHeaderSkip(front, back);
    if last == HEADER1 {
      assert HeaderStart(b) + x == back;
      SameTurn(b + x, back, front);
    } else {
      assert HeaderStart(b) + x == x;
      LastIsNoHeader(last, x);
      assert b + x == b + x && FindHeader(b + x) == |b| + FindHeader(x);
      SameTurn(b + x, x, b);
    }
  }

  lemma LastIsNoHeader(last: byte, x: seq<byte>)
    requires last != HEADER1 && x != []
    ensures FindHeader([last] + x) == 1 + FindHeader(x)
  {
    assert ([last] + x)[1..] == x;
  }

  /** Two buffers that agree from their first header on are treated alike. */
  lemma SameTurn(whole: seq<byte>, tail: seq<byte>, front: seq<byte>)
    requires whole == front + tail && |whole| >= 2 && tail != []
    requires FindHeader(whole) == |front| + FindHeader(tail)
    ensures SameAfter(Extract(whole), [], Extract(tail))
  {
    hide AtHeader, FindHeader;
    var h := FindHeader(tail);
    if h < |tail| {
      assert whole[|front| + h..] == tail[h..];
      assert TurnOf(whole) == AtHeader(tail[h..]) == TurnOf(tail);
    } else {
      assert TurnOf(whole) == Turn.Stop(HeaderStart(whole)) && whole[|whole| - 1] == tail[|tail| - 1];
      if |tail| >= 2 {
        assert TurnOf(tail) == Turn.Stop(HeaderStart(tail));
      } else {
        assert TurnOf(tail) == Turn.Stop(tail);
      }
    }
  }

  lemma TurnAtHeader(b: seq<byte>)
    requires FindHeader(b) < |b|
    ensures TurnOf(b) == AtHeader(b[FindHeader(b)..])
  {
  }

  /** What more bytes behind a buffer with a header change about its next turn. */
  lemma TurnAppend(b: seq<byte>, x: seq<byte>)
    requires FindHeader(b) < |b|
    ensures var t := TurnOf(b);
      && (t.Stop? ==> TurnOf(b + x) == TurnOf(t.rest + x))
      && (t.Drop? ==> TurnOf(b + x) == Drop(t.rest + x))
      && (t.Emit? ==> TurnOf(b + x) == Emit(t.frame, t.rest + x))
  {
    hide TurnOf, AtHeader, FindHeader;
    var h := FindHeader(b);
    var c := b[h..];
    FindHeaderFound(b, x);
    AtHeaderAppend(c, x);
    TurnAtHeader(b);
    TurnAtHeader(b + x);
    TurnAtFront(c + x);
    DropAppend(b, x, h);
  }

  lemma DropAppend(b: seq<byte>, x: seq<byte>, h: nat)
    requires h <= |b|
    ensures (b + x)[h..] == b[h..] + x
  {
  }

  lemma TurnAtFront(c: seq<byte>)
    requires |c| >= 2 && c[0] == HEADER1 && c[1] == HEADER2
    ensures TurnOf(c) == AtHeader(c)
  {
    hide AtHeader;
    HeaderFirst(c);
    assert c[0..] == c;
  }

  lemma ExtractStep(b: seq<byte>)
    ensures match TurnOf(b)
      case Stop(rest) => Extract(b) == Extraction([], rest)
      case Drop(rest) => Extract(b) == Extract(rest)
      case Emit(frame, rest) => Extract(b).frames == [frame] + Extract(rest).frames && Extract(b).rest == Extract(rest).rest
  {
  }

  lemma SameTurnSame(a: seq<byte>, b: seq<byte>)
    requires TurnOf(a) == TurnOf(b)
    ensures Extract(a) == Extract(b)
  {
  }

  lemma ExtractShort(b: seq<byte>)
    requires |b| < 2
    ensures Extract(b) == Extraction([], b)
  {
  }

  lemma NoHeaderTurn(b: seq<byte>)
    requires |b| >= 2 && FindHeader(b) == |b|
    ensures Extract(b) == Extraction([], HeaderStart(b))
  {
  }

  /** Extracting now and again after more bytes is extracting once at the end. */
  lemma {:induction false} ExtractAppend(b: seq<byte>, x: seq<byte>)
    ensures SameAfter(Extract(b + x), Extract(b).frames, Extract(Extract(b).rest + x))
    decreases |b|
  {
    hide FindHeader, AtHeader, TurnOf, Extract, Norm;
    if x == [] {
      assert b + x == b && Extract(b).rest + x == Extract(b).rest;
      RestIsStable(b);
    } else if |b| < 2 {
      ExtractShort(b);
    } else if FindHeader(b) == |b| {
      NoHeaderTurn(b);
      NoHeaderAppend(b, x);
    } else {
      TurnAppend(b, x);
      ExtractStep(b);
      ExtractStep(b + x);
      match TurnOf(b)
      case Stop(rest) => SameTurnSame(b + x, rest + x);
      case Drop(rest) => ExtractAppend(rest, x);
      case Emit(_, rest) => ExtractAppend(rest, x);
    }
  }

  /** Nothing more comes out of what an extraction left behind. */
  lemma {:induction false} RestIsStable(b: seq<byte>)
    ensures Extract(Extract(b).rest).frames == [] && Norm(Extract(Extract(b).rest).rest) == Norm(Extract(b).rest)
    decreases |b|
  {
    if |b| >= 2 {
      var h := FindHeader(b);
      if h < |b| {
        var c := b[h..];
        HeaderFirst(c);
        assert c[0..] == c;
        AtHeaderAppend(c, []);
        hide FindHeader, AtHeader;
        match AtHeader(c)
        case Stop(_) =>
        case Drop(rest) => RestIsStable(rest);
        case Emit(_, rest) => RestIsStable(rest);
      }
    }
  }

  /** Rounds of `append` and `extractFrames`, the frames run together. */
  function Drive(buffer: seq<byte>, chunks: seq<seq<byte>>): Extraction
    decreases |chunks|
  {
    if chunks == [] then Extraction([], buffer)
    else
      var first := Extract(buffer + chunks[0]);
      var more := Drive(first.rest, chunks[1..]);
      Extraction(first.frames + more.frames, more.rest)
  }

  lemma {:induction false} DriveIsExtract(buffer: seq<byte>, chunks: seq<seq<byte>>)
    requires Extract(buffer).frames == [] && Norm(Extract(buffer).rest) == Norm(buffer)
    ensures SameAfter(Extract(buffer + Concat(chunks)), [], Drive(buffer, chunks))
    decreases |chunks|
  {
    hide Extract;
    if chunks == [] {
      assert buffer + [] == buffer;
    } else {
      var b := buffer + chunks[0];
      RestIsStable(b);
      DriveIsExtract(Extract(b).rest, chunks[1..]);
      ExtractAppend(b, Concat(chunks[1..]));
      assert buffer + Concat(chunks) == b + Concat(chunks[1..]);
    }
  }

  /** However a stream is cut into rounds, a fresh parser emits exactly the frames at all accepted
      positions of the whole stream, in order, and ends, up to a lone byte that starts no header,
      with the buffer that one round would leave. */
  lemma ChunksDoNotMatter(chunks: seq<seq<byte>>)
    ensures Drive([], chunks).frames == Scan(Concat(chunks))
    ensures Norm(Drive([], chunks).rest) == Norm(Extract(Concat(chunks)).rest)
    ensures |Drive([], chunks).rest| <= 8
  {
    hide Extract, Scan, Drive, Norm, Concat;
    ExtractNothing();
    assert [] + Concat(chunks) == Concat(chunks);
    DriveIsExtract([], chunks);
    ExtractExact(Concat(chunks));
    DriveRestIsShort([], chunks);
  }

  lemma ExtractNothing()
    ensures Extract([]) == Extraction([], [])
  {
  }

  lemma {:induction false} DriveRestIsShort(buffer: seq<byte>, chunks: seq<seq<byte>>)
    requires |buffer| <= 8
    ensures |Drive(buffer, chunks).rest| <= 8
    decreases |chunks|
  {
    hide Extract;
    if chunks != [] {
      ExtractExact(buffer + chunks[0]);
      DriveRestIsShort(Extract(buffer + chunks[0]).rest, chunks[1..]);
    }
  }

  // ---- Noise ----

  function EncodeAll(frames: seq<Frame>): seq<byte> {
    if frames == [] then [] else Encode(frames[0]) + EncodeAll(frames[1..])
  }

  lemma ScanEncoded(f: Frame, rest: seq<byte>)
    ensures AcceptsAt(Encode(f) + rest, 0) && Scan(Encode(f) + rest) == [f] + Scan(rest)
  {
    hide Encode, Decode, Scan;
    var s := Encode(f) + rest;
    assert s[..FRAME_SIZE] == s[0..FRAME_SIZE] == Encode(f);
    DecodeExact(Encode(f), f);
    ScanAccepted(s);
    assert s[FRAME_SIZE..] == rest;
  }

  lemma {:induction false} ScanAfterFrames(frames: seq<Frame>, rest: seq<byte>)
    ensures Scan(EncodeAll(frames) + rest) == frames + Scan(rest)
  {
    hide Encode, Scan;
    if frames == [] {
      assert [] + rest == rest;
    } else {
      ScanEncoded(frames[0], EncodeAll(frames[1..]) + rest);
      ScanAfterFrames(frames[1..], rest);
      assert EncodeAll(frames) + rest == Encode(frames[0]) + (EncodeAll(frames[1..]) + rest);
    }
  }

  /** A window that starts in the noise cannot reach into the frame behind it. */
  lemma NoiseKeepsApart(noise: seq<byte>, f: Frame, rest: seq<byte>)
    requires 0 < |noise| < FRAME_SIZE
    ensures !AcceptsAt(noise + (Encode(f) + rest), 0)
  {
    hide Encode, AcceptsAt;
    var s := noise + (Encode(f) + rest);
    ScanEncoded(f, rest);
    assert s[|noise|..] == Encode(f) + rest;
    ShiftAccepts(s, |noise|, 0);
    if AcceptsAt(s, 0) {
      WindowsDoNotOverlap(s, 0, |noise|);
    }
  }

  lemma {:induction false} ScanNoise(noise: seq<byte>, frames: seq<Frame>)
    ensures Scan(noise + EncodeAll(frames)) == Scan(noise) + frames
    decreases |noise|
  {
    hide Scan, AcceptsAt;
    var s := noise + EncodeAll(frames);
    if frames == [] {
      assert s == noise;
    } else if noise == [] {
      ScanShort([]);
      ScanAfterFrames(frames, []);
      assert EncodeAll(frames) + [] == s;
    } else {
      ScanNoise(noise[1..], frames);
      assert s[1..] == noise[1..] + EncodeAll(frames);
      ScanStep(s);
      if |noise| < FRAME_SIZE {
        ScanShort(noise);
        ScanShort(noise[1..]);
        NoiseKeepsApart(noise, frames[0], EncodeAll(frames[1..]));
      } else {
        ScanStep(noise);
        SamePrefix(noise, EncodeAll(frames));
      }
    }
  }

  lemma SamePrefix(a: seq<byte>, b: seq<byte>)
    requires |a| >= FRAME_SIZE
    ensures (a + b)[..FRAME_SIZE] == a[..FRAME_SIZE] && (AcceptsAt(a + b, 0) <==> AcceptsAt(a, 0))
  {
    assert (a + b)[0..FRAME_SIZE] == a[0..FRAME_SIZE];
  }

  /** Resynchronisation: whatever bytes stand between two runs of frames, all frames of both runs
      come out, in order, and between them only what the noise itself contains. */
  lemma NoiseCostsNothing(before: seq<Frame>, noise: seq<byte>, after: seq<Frame>)
    ensures Extract(EncodeAll(before) + noise + EncodeAll(after)).frames == before + Scan(noise) + after
  {
    hide Scan, Extract, EncodeAll;
    var front, back := EncodeAll(before), EncodeAll(after);
    ExtractExact(front + noise + back);
    assert front + noise + back == front + (noise + back);
    ScanAfterFrames(before, noise + back);
    ScanNoise(noise, after);
  }

  lemma {:induction false} EncodeAllParts(frames: seq<Frame>, k: nat)
    requires k < |frames|
    ensures |EncodeAll(frames)| == FRAME_SIZE * |frames|
    ensures EncodeAll(frames) == EncodeAll(frames[..k]) + Encode(frames[k]) + EncodeAll(frames[k + 1..])
    ensures |EncodeAll(frames[..k])| == FRAME_SIZE * k
  {
    hide Encode;
    EncodeAllLength(frames);
    EncodeAllLength(frames[..k]);
    if k > 0 {
      EncodeAllParts(frames[1..], k - 1);
      assert frames[1..][..k - 1] == frames[..k][1..] && frames[1..][k..] == frames[k + 1..];
    }
  }

  lemma {:induction false} EncodeAllLength(frames: seq<Frame>)
    ensures |EncodeAll(frames)| == FRAME_SIZE * |frames|
  {
    if frames != [] {
      EncodeAllLength(frames[1..]);
    }
  }

  /** Changing one byte of a run of frames to any other value costs exactly the frame it lies in. */
  lemma OneBadByteCostsOneFrame(frames: seq<Frame>, position: nat, value: byte)
    requires position < |EncodeAll(frames)| && EncodeAll(frames)[position] != value
    ensures var k := position / FRAME_SIZE;
      k < |frames| && Extract(EncodeAll(frames)[position := value]).frames == frames[..k] + frames[k + 1..]
  {
    hide Encode, Scan, Extract, EncodeAll;
    EncodeAllLength(frames);
    var k, p := position / FRAME_SIZE, position % FRAME_SIZE;
    EncodeAllParts(frames, k);
    var front, back := EncodeAll(frames[..k]), EncodeAll(frames[k + 1..]);
    var bad := Encode(frames[k])[p := value];
    CorruptedIsRejected(frames[k], p, value);
    RejectedIsSilent(bad);
    assert EncodeAll(frames)[position := value] == front + bad + back;
    NoiseCostsNothing(frames[..k], bad, frames[k + 1..]);
  }

  lemma RejectedIsSilent(bad: seq<byte>)
    requires |bad| == FRAME_SIZE && Decode(bad).Rejected?
    ensures Scan(bad) == []
  {
    hide Decode, Scan;
    assert bad[0..FRAME_SIZE] == bad;
    ScanStep(bad);
    ScanShort(bad[1..]);
  }

  // ---- The class ----

  class StreamParser {
    var buffer: seq<byte>

    constructor ()
      ensures buffer == []
    {
      buffer := [];
    }

    method Append(bytes: seq<byte>)
      modifies this
      ensures buffer == old(buffer) + bytes
    {
      buffer := buffer + bytes;
    }

    /** The inner search loop. */
    method HeaderPosition() returns (position: nat)
      requires |buffer| >= 2
      ensures position == FindHeader(buffer)
    {
      for index := 0 to |buffer| - 1
        invariant FindHeader(buffer) == index + FindHeader(buffer[index..])
      {
        if buffer[index] == HEADER1 && buffer[index + 1] == HEADER2 {
          return index;
        }
        assert buffer[index..][1..] == buffer[index + 1..];
      }
      return |buffer|;
    }

    /** One turn of the outer loop on the live buffer. */
    method TakeTurn() returns (done: bool, frames: seq<Frame>)
      modifies this
      ensures var t := TurnOf(old(buffer));
        buffer == t.rest && done == t.Stop? && frames == if t.Emit? then [t.frame] else []
    {
      hide Decode, FindHeader;
      done, frames := true, [];
      if |buffer| < 2 {
        return;
      }
      var headerPosition := HeaderPosition();
      if headerPosition == |buffer| {
        buffer := if buffer[|buffer| - 1] == HEADER1 then [buffer[|buffer| - 1]] else [];
        return;
      }
      if headerPosition > 0 {
        buffer := buffer[headerPosition..];
      }
      assert buffer == old(buffer)[headerPosition..];
      if |buffer| < 3 {
        return;
      }
      var payloadLength := buffer[2];
      if payloadLength != PAYLOAD_LENGTH {
        buffer := buffer[1..];
        return false, [];
      }
      var expectedSize := payloadLength as nat + 6;
      if |buffer| < expectedSize {
        return;
      }
      var ok, frame, _ := DecodeFrame(buffer[..expectedSize], Frame(0, Open));
      if ok {
        buffer := buffer[expectedSize..];
        return false, [frame];
      }
      buffer := buffer[1..];
      done := false;
    }

    method ExtractFrames() returns (frames: seq<Frame>)
      modifies this
      ensures Extraction(frames, buffer) == Extract(old(buffer))
      ensures frames == Scan(old(buffer)) && |buffer| <= 8
    {
      hide TurnOf, Scan;
      ExtractExact(buffer);
      frames := [];
      var done := false;
      ghost var total := Extract(buffer);
      while !done
        invariant !done ==> frames + Extract(buffer).frames == total.frames && Extract(buffer).rest == total.rest
        invariant done ==> frames == total.frames && buffer == total.rest
        decreases !done, |buffer|
      {
        ExtractStep(buffer);
        TurnShrinks(buffer);
        var more;
        done, more := TakeTurn();
        frames := frames + more;
      }
    }
  }

  lemma TurnShrinks(b: seq<byte>)
    ensures !TurnOf(b).Stop? ==> |TurnOf(b).rest| < |b|
  {
  }

  /** A fresh parser driven through rounds of `append` and `extractFrames`. */
  method ParseChunks(chunks: seq<seq<byte>>) returns (frames: seq<Frame>)
    ensures frames == Scan(Concat(chunks))
  {
    hide Extract, Scan;
    var parser := new StreamParser();
    frames := [];
    for i := 0 to |chunks|
      invariant fresh(parser)
      invariant frames + Drive(parser.buffer, chunks[i..]).frames == Drive([], chunks).frames
    {
      assert chunks[i..][1..] == chunks[i + 1..];
      parser.Append(chunks[i]);
      var more := parser.ExtractFrames();
      frames := frames + more;
    }
    ChunksDoNotMatter(chunks);
  }
}

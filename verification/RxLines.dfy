/** The receive worker: bytes arrive in arbitrary reads and leave as acknowledgements. */
module RxLines {
  import opened Basics
  import opened Decimal
  import opened AckParser

  const MAX_LINE := 95

  /** What follows the last line feed. */
  function Unfinished(stream: string): string {
    if stream == "" || stream[|stream| - 1] == '\n' then ""
    else Unfinished(stream[..|stream| - 1]) + [stream[|stream| - 1]]
  }

  /** The newline-terminated segments of a stream, without their terminators. */
  function Segments(stream: string): seq<string> {
    if stream == "" then []
    else
      var init := stream[..|stream| - 1];
      if stream[|stream| - 1] == '\n' then Segments(init) + [Unfinished(init)] else Segments(init)
  }

  function Join(segments: seq<string>): string {
    if segments == [] then "" else Join(segments[..|segments| - 1]) + (segments[|segments| - 1] + "\n")
  }

  lemma SplitEmpty()
    ensures Segments("") == [] && Unfinished("") == "" && Join([]) == "" && Kept([]) == []
  {
  }

  lemma JoinSnoc(segments: seq<string>, segment: string)
    ensures Join(segments + [segment]) == Join(segments) + (segment + "\n")
  {
    assert (segments + [segment])[..|segments|] == segments;
  }

  lemma SplitSnoc(done: string, c: char)
    ensures c == '\n' ==> Segments(done + [c]) == Segments(done) + [Unfinished(done)] && Unfinished(done + [c]) == ""
    ensures c != '\n' ==> Segments(done + [c]) == Segments(done) && Unfinished(done + [c]) == Unfinished(done) + [c]
  {
    assert (done + [c])[..|done|] == done;
  }

  /** Splitting is exact: the segments and the rest spell the stream again, and neither a segment
      nor the rest hides a line feed. */
  lemma {:induction false} SplitExact(stream: string)
    ensures Join(Segments(stream)) + Unfinished(stream) == stream
    ensures '\n' !in Unfinished(stream)
    ensures forall i :: 0 <= i < |Segments(stream)| ==> '\n' !in Segments(stream)[i]
  {
    hide *;
    if stream == "" {
      SplitEmpty();
    } else {
      var init, c := stream[..|stream| - 1], stream[|stream| - 1];
      assert stream == init + [c];
      SplitExact(init);
      SplitSnoc(init, c);
      JoinSnoc(Segments(init), Unfinished(init));
    }
  }

  /** Characters other than line feeds only lengthen the unfinished line. */
  lemma {:induction false} SplitText(done: string, text: string)
    requires '\n' !in text
    ensures Segments(done + text) == Segments(done) && Unfinished(done + text) == Unfinished(done) + text
  {
    hide *;
    if text == "" {
      assert done + text == done;
    } else {
      var init, c := text[..|text| - 1], text[|text| - 1];
      SplitText(done, init);
      SplitSnoc(done + init, c);
      assert done + text == done + init + [c];
    }
  }

  /** Empty lines and lines longer than 95 characters never reach the parser. */
  predicate Accepted(line: string) {
    1 <= |line| <= MAX_LINE
  }

  /** The lines handed to `parse_ack`, in order. */
  function Kept(lines: seq<string>): seq<string> {
    if lines == [] then []
    else Kept(lines[..|lines| - 1]) + if Accepted(lines[|lines| - 1]) then [lines[|lines| - 1]] else []
  }

  lemma KeptSnoc(lines: seq<string>, line: string)
    ensures Kept(lines + [line]) == Kept(lines) + if Accepted(line) then [line] else []
  {
    assert (lines + [line])[..|lines|] == lines;
  }

  /** A line on its own is handed on exactly when it has 1 to 95 characters. */
  lemma LineLimits(line: string)
    requires '\n' !in line
    ensures Kept(Segments(line + "\n")) == if 1 <= |line| <= 95 then [line] else []
  {
    SplitEmpty();
    SplitText("", line);
    assert "" + line == line;
    SplitSnoc(line, '\n');
    KeptSnoc([], line);
    assert [] + [line] == [line];
  }

  /** The worker's local variables, `rx_line` and `discard_line`, kept between reads. */
  class LineAssembler {
    var rxLine: string
    var discardLine: bool
    ghost var received: string
    ghost var handed: seq<string>

    ghost predicate Valid()
      reads this
    {
      var line := Unfinished(received);
      && discardLine == (|line| > MAX_LINE)
      && rxLine == (if discardLine then "" else line)
      && handed == Kept(Segments(received))
    }

    constructor ()
      ensures Valid() && received == "" && handed == []
    {
      rxLine, discardLine, received, handed := "", false, "", [];
    }

    /** One received character. */
    method Accept(ch: char) returns (lines: seq<string>)
      requires Valid()
      modifies this
      ensures Valid() && received == old(received) + [ch] && handed == old(handed) + lines
    {
      lines := [];
      SplitSnoc(received, ch);
      if ch == '\n' {
        KeptSnoc(Segments(received), Unfinished(received));
        if !discardLine && rxLine != "" {
          lines := [rxLine];
        }
        rxLine := "";
        discardLine := false;
      } else if !discardLine {
        if |rxLine| < MAX_LINE {
          rxLine := rxLine + [ch];
        } else {
          rxLine := "";
          discardLine := true;
        }
      }
      received, handed := received + [ch], handed + lines;
    }

    /** One successful `read`: the lines handed on are exactly the acceptable ones that this read
        completes, however the stream was cut into reads before. */
    method Read(buffer: string) returns (lines: seq<string>)
      requires Valid()
      modifies this
      ensures Valid() && received == old(received) + buffer && handed == old(handed) + lines
    {
      hide *;
      lines := [];
      for i := 0 to |buffer|
        invariant Valid() && received == old(received) + buffer[..i] && handed == old(handed) + lines
      {
        var more := Accept(buffer[i]);
        lines := lines + more;
      }
    }
  }

  /** Reading a whole stream in any sequence of reads hands on the same lines, in the same order,
      as splitting the stream and keeping the segments of 1 to 95 characters. */
  method ReadAll(chunks: seq<string>) returns (lines: seq<string>)
    ensures lines == Kept(Segments(Concat(chunks)))
  {
    var worker := new LineAssembler();
    lines := [];
    for i := 0 to |chunks|
      invariant worker.Valid() && fresh(worker)
      invariant worker.received == Concat(chunks[..i])
      invariant lines == worker.handed
    {
      var more := worker.Read(chunks[i]);
      ConcatSnoc(chunks[..i], chunks[i]);
      assert chunks[..i + 1] == chunks[..i] + [chunks[i]];
      lines := lines + more;
    }
    assert chunks[..|chunks|] == chunks;
  }

  /** What `parse_ack` makes of the lines; the line feed is put back before parsing. */
  function Acks(lines: seq<string>): seq<Ack> {
    if lines == [] then []
    else
      match Parse(lines[0] + "\n")
      case None => Acks(lines[1..])
      case Some(ack) => [ack] + Acks(lines[1..])
  }

  /** The transcript of a device that prints these lines, each followed by a line feed. */
  function Printed(lines: seq<string>): string {
    if lines == [] then "" else Printed(lines[..|lines| - 1]) + lines[|lines| - 1] + "\n"
  }

  lemma {:induction false} PrintedIsKept(lines: seq<string>)
    requires forall i :: 0 <= i < |lines| ==> '\n' !in lines[i] && Accepted(lines[i])
    ensures Kept(Segments(Printed(lines))) == lines && Unfinished(Printed(lines)) == ""
  {
    if lines != [] {
      var init, last := lines[..|lines| - 1], lines[|lines| - 1];
      PrintedIsKept(init);
      OneMoreLine(Printed(init), last);
      assert init + [last] == lines;
    }
  }

  lemma OneMoreLine(before: string, line: string)
    requires Unfinished(before) == "" && '\n' !in line && Accepted(line)
    ensures Kept(Segments(before + line + "\n")) == Kept(Segments(before)) + [line]
    ensures Unfinished(before + line + "\n") == ""
  {
    SplitText(before, line);
    assert "" + line == line;
    SplitSnoc(before + line, '\n');
    KeptSnoc(Segments(before), line);
  }

  /** Acknowledgements as the device prints them, with a carriage return before the line feed. */
  function Lines(acks: seq<Ack>): seq<string> {
    if acks == [] then [] else [AckText(acks[0]) + "\r"] + Lines(acks[1..])
  }

  /** Every printed acknowledgement gets through the line assembly and the parser, once, in order. */
  lemma TranscriptIsDelivered(acks: seq<Ack>)
    ensures Acks(Kept(Segments(Printed(Lines(acks))))) == acks
  {
    LinesParse(acks);
    PrintedIsKept(Lines(acks));
  }

  lemma {:induction false} LinesParse(acks: seq<Ack>)
    ensures Acks(Lines(acks)) == acks
    ensures forall i :: 0 <= i < |Lines(acks)| ==> '\n' !in Lines(acks)[i] && Accepted(Lines(acks)[i])
  {
    hide Parse, AckText, Accepted;
    if acks != [] {
      LinesParse(acks[1..]);
      PrintedLineFits(acks[0]);
      ParseInvertsPrint(acks[0]);
    }
  }

  lemma PrintedLineFits(ack: Ack)
    ensures '\n' !in AckText(ack) + "\r" && Accepted(AckText(ack) + "\r")
  {
    LengthOfToString(ack.seqNo, 10);
    NameFits(ack.status);
  }

  lemma NameFits(status: AckStatus)
    ensures '\n' !in StatusName(status) && |StatusName(status)| <= 11
  {
  }
}

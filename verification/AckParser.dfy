/** The text acknowledgement `ACK:<seq> <STATUS>` that the hand controller sends back. */
module AckParser {
  import opened Basics
  import opened Decimal

  datatype AckStatus = InProgress | Ok | Preempted | Busy | Error

  datatype Ack = Ack(seqNo: uint32, status: AckStatus)

  function StatusName(status: AckStatus): string {
    match status
    case InProgress => "IN_PROGRESS"
    case Ok => "OK"
    case Preempted => "PREEMPTED"
    case Busy => "BUSY"
    case Error => "ERROR"
  }

  function StatusOf(text: string): (status: Option<AckStatus>)
    ensures forall st :: status == Some(st) <==> text == StatusName(st)
  {
    if text == "IN_PROGRESS" then Some(InProgress)
    else if text == "OK" then Some(Ok)
    else if text == "PREEMPTED" then Some(Preempted)
    else if text == "BUSY" then Some(Busy)
    else if text == "ERROR" then Some(Error)
    else
      assert |"BUSY"| == 4 && |"OK"| == 2;
      None
  }

  /** Drops one final line feed and then one carriage return before it. */
  function StripNewline(line: string): string {
    if line != "" && line[|line| - 1] == '\n' then
      var text := line[..|line| - 1];
      if text != "" && text[|text| - 1] == '\r' then text[..|text| - 1] else text
    else line
  }

  /** What the protocol accepts: `digits` and `status` read off `line`, with no line end, LF or CR LF,
      and the number fits 32 bits. */
  ghost predicate Reads(line: string, digits: string, status: AckStatus) {
    var text := "ACK:" + digits + " " + StatusName(status);
    && (line == text || line == text + "\n" || line == text + "\r\n")
    && digits != "" && AllDigits(digits)
    && Value(digits) <= 0xFFFF_FFFF
  }

  /** End of the run of digits that starts at `pos`. */
  function DigitsEnd(text: string, pos: nat): (end: nat)
    requires pos <= |text|
    ensures pos <= end <= |text|
    ensures AllDigits(text[pos..end])
    ensures end < |text| ==> !IsDigit(text[end])
    decreases |text| - pos
  {
    if pos < |text| && IsDigit(text[pos]) then
      var end := DigitsEnd(text, pos + 1);
      assert text[pos..end] == [text[pos]] + text[pos + 1..end];
      end
    else pos
  }

  datatype Fields = Fields(digits: string, name: string)

  /** Cuts a line that starts with a four-character tag into the digit run behind the tag and
      whatever follows the one space after it. */
  function Cut(tag: string, text: string): (fields: Option<Fields>)
    ensures fields.Some? ==> AllDigits(fields.value.digits)
  {
    if |text| < 4 || text[..4] != tag then None
    else
      var end := DigitsEnd(text, 4);
      if end == 4 || end == |text| || text[end] != ' ' then None
      else Some(Fields(text[4..end], text[end + 1..]))
  }

  function Parse(line: string): Option<Ack> {
    match Cut("ACK:", StripNewline(line))
    case None => None
    case Some(Fields(digits, name)) =>
      if Value(digits) > UINT32_MAX then None
      else
        match StatusOf(name)
        case None => None
        case Some(status) => Some(Ack(Value(digits), status))
  }

  /** The digit run of an acceptable line is exactly its sequence field. */
  lemma {:induction false} DigitsEndOf(text: string, digits: string, rest: string, pos: nat)
    requires pos <= |text| && text[pos..] == digits + rest
    requires AllDigits(digits) && (rest != "" ==> !IsDigit(rest[0]))
    ensures DigitsEnd(text, pos) == pos + |digits|
    decreases |digits|
  {
    if digits == "" {
      if pos < |text| {
        assert text[pos] == text[pos..][0] == rest[0];
      }
    } else {
      assert text[pos] == text[pos..][0] == digits[0];
      assert text[pos + 1..] == text[pos..][1..] == digits[1..] + rest;
      DigitsEndOf(text, digits[1..], rest, pos + 1);
    }
  }

  lemma CutComplete(tag: string, digits: string, name: string)
    requires |tag| == 4 && digits != "" && AllDigits(digits)
    ensures Cut(tag, tag + digits + " " + name) == Some(Fields(digits, name))
  {
    var text := tag + digits + " " + name;
    var rest := " " + name;
    assert text[4..] == digits + rest;
    DigitsEndOf(text, digits, rest, 4);
    var end := 4 + |digits|;
    assert text[..4] == tag;
    assert text[4..end] == digits;
    assert text[end] == ' ';
    assert text[end + 1..] == name;
  }

  lemma CutSound(tag: string, text: string)
    requires Cut(tag, text).Some?
    ensures var fields := Cut(tag, text).value; text == tag + fields.digits + " " + fields.name && fields.digits != ""
  {
    var end := DigitsEnd(text, 4);
    assert text == text[..4] + text[4..end] + [text[end]] + text[end + 1..];
  }

  /** Acceptance in both directions: a line is accepted exactly when it reads as some digits and
      some status, and the answer is then the mathematical value of those digits. */
  lemma ParseExact(line: string, ack: Ack)
    ensures Parse(line) == Some(ack)
       <==> exists digits :: Reads(line, digits, ack.status) && Value(digits) == ack.seqNo
  {
    if Parse(line) == Some(ack) {
      CutSound("ACK:", StripNewline(line));
      var digits := Cut("ACK:", StripNewline(line)).value.digits;
      LineEnds(line, digits, ack.status);
      assert Reads(line, digits, ack.status);
    }
    if digits :| Reads(line, digits, ack.status) && Value(digits) == ack.seqNo {
      LineEnds(line, digits, ack.status);
      CutComplete("ACK:", digits, StatusName(ack.status));
    }
  }

  /** Refused is exactly what does not read so; every 32-bit number is let through. */
  lemma AcceptedExactly(line: string)
    ensures Parse(line).Some? <==> exists digits, status :: Reads(line, digits, status)
  {
    hide Reads, Parse;
    if Parse(line).Some? {
      ParseExact(line, Parse(line).value);
    }
    if digits, status :| Reads(line, digits, status) {
      ReadFits(line, digits, status);
      ParseExact(line, Ack(Value(digits), status));
    }
  }

  lemma ReadFits(line: string, digits: string, status: AckStatus)
    requires Reads(line, digits, status)
    ensures AllDigits(digits) && Value(digits) <= UINT32_MAX
  {
  }

  lemma LineEnds(line: string, digits: string, status: AckStatus)
    ensures var text := "ACK:" + digits + " " + StatusName(status);
      StripNewline(line) == text <==> line == text || line == text + "\n" || line == text + "\r\n"
  {
    var front, name := "ACK:" + digits + " ", StatusName(status);
    assert name[|name| - 1] !in "\r\n";
    StripText(front, name);
    hide StatusName;
    var text := front + name;
    assert text + "\r" + "\n" == text + "\r\n";
    Unstripped(line);
  }

  lemma Unstripped(line: string)
    ensures line == StripNewline(line) || line == StripNewline(line) + "\n" || line == StripNewline(line) + "\r\n"
  {
    if line != "" && line[|line| - 1] == '\n' {
      var text := line[..|line| - 1];
      assert line == text + "\n";
      if text != "" && text[|text| - 1] == '\r' {
        assert text == text[..|text| - 1] + "\r";
        assert line == text[..|text| - 1] + "\r\n";
      }
    }
  }

  /** The line the device prints, without its terminator. */
  function AckText(ack: Ack): string {
    "ACK:" + ToString(ack.seqNo) + " " + StatusName(ack.status)
  }

  /** Parsing inverts printing, whichever of the accepted terminators is used. */
  lemma ParseInvertsPrint(ack: Ack)
    ensures Parse(AckText(ack)) == Some(ack)
    ensures Parse(AckText(ack) + "\n") == Some(ack)
    ensures Parse(AckText(ack) + "\r" + "\n") == Some(ack)
  {
    ValueOfToString(ack.seqNo);
    CutComplete("ACK:", ToString(ack.seqNo), StatusName(ack.status));
    StripText("ACK:" + ToString(ack.seqNo) + " ", StatusName(ack.status));
  }

  /** The five status words, each line written out. */
  lemma StatusWords(n: uint32)
    ensures Parse("ACK:" + ToString(n) + " OK\r\n") == Some(Ack(n, Ok))
    ensures Parse("ACK:" + ToString(n) + " IN_PROGRESS\r\n") == Some(Ack(n, InProgress))
    ensures Parse("ACK:" + ToString(n) + " PREEMPTED\r\n") == Some(Ack(n, Preempted))
    ensures Parse("ACK:" + ToString(n) + " BUSY\r\n") == Some(Ack(n, Busy))
    ensures Parse("ACK:" + ToString(n) + " ERROR\r\n") == Some(Ack(n, Error))
  {
    hide Parse, ToString;
    Printed(n, Ok, "OK");
    Printed(n, InProgress, "IN_PROGRESS");
    Printed(n, Preempted, "PREEMPTED");
    Printed(n, Busy, "BUSY");
    Printed(n, Error, "ERROR");
    assert " " + "OK" + ("\r" + "\n") == " OK\r\n";
    assert " " + "IN_PROGRESS" + ("\r" + "\n") == " IN_PROGRESS\r\n";
    assert " " + "PREEMPTED" + ("\r" + "\n") == " PREEMPTED\r\n";
    assert " " + "BUSY" + ("\r" + "\n") == " BUSY\r\n";
    assert " " + "ERROR" + ("\r" + "\n") == " ERROR\r\n";
  }

  lemma Printed(n: uint32, status: AckStatus, word: string)
    requires StatusName(status) == word
    ensures Parse("ACK:" + ToString(n) + (" " + word + ("\r" + "\n"))) == Some(Ack(n, status))
  {
    hide Parse, ToString;
    ParseInvertsPrint(Ack(n, status));
    Grouped("ACK:" + ToString(n), " ", word, "\r", "\n");
  }

  lemma Grouped(a: string, b: string, c: string, d: string, e: string)
    ensures a + b + c + d + e == a + (b + c + (d + e))
  {
  }

  lemma StripText(front: string, name: string)
    requires name != "" && name[|name| - 1] !in "\r\n"
    ensures StripNewline(front + name) == front + name
    ensures StripNewline(front + name + "\n") == front + name
    ensures StripNewline(front + name + "\r" + "\n") == front + name
  {
    var text := front + name;
    var cr := text + "\r";
    assert (text + "\n")[..|text|] == text && cr[..|text|] == text;
    assert (cr + "\n")[..|cr|] == cr;
  }

  /** The digit loop of `parse_ack`: one pass with a guard before every multiplication.
      `parsed` has a 32-bit type, so the guard must rule out every wrap-around. */
  method ReadSequence(text: string, start: nat) returns (fits: bool, parsed: uint32, pos: nat)
    requires start <= |text|
    ensures fits <==> Value(text[start..DigitsEnd(text, start)]) <= UINT32_MAX
    ensures fits ==> pos == DigitsEnd(text, start) && parsed == Value(text[start..pos])
  {
    hide Value, DigitsEnd;
    pos, parsed := start, 0;
    NoDigits(text, start);
    ghost var end := DigitsEnd(text, start);
    while pos < |text| && '0' <= text[pos] <= '9'
      invariant start <= pos <= end && AllDigits(text[start..pos])
      invariant parsed == Value(text[start..pos])
    {
      var digit: uint32 := text[pos] as int - '0' as int;
      RunReaches(text, start, pos);
      OneMoreDigit(text, start, pos, end);
      if parsed > (UINT32_MAX - digit) / 10 {
        return false, parsed, pos;
      }
      parsed := parsed * 10 + digit;
      pos := pos + 1;
    }
    DigitRunEndsHere(text, start, pos);
    fits := true;
  }

  lemma NoDigits(text: string, start: nat)
    requires start <= |text|
    ensures text[start..start] == "" && Value("") == 0
  {
  }

  /** One more digit of a run: its value, which no longer run undercuts. */
  lemma OneMoreDigit(text: string, start: nat, pos: nat, end: nat)
    requires start <= pos < end <= |text| && AllDigits(text[start..pos]) && IsDigit(text[pos])
    requires AllDigits(text[start..end])
    ensures AllDigits(text[start..pos + 1])
    ensures Value(text[start..pos + 1]) == Value(text[start..pos]) * 10 + DigitValue(text[pos])
    ensures Value(text[start..pos + 1]) <= Value(text[start..end])
  {
    var longer := text[start..pos + 1];
    assert longer == text[start..pos] + [text[pos]];
    ValueSnoc(text[start..pos], text[pos]);
    var run := text[start..end];
    assert run[..pos + 1 - start] == longer;
    ValueOfPrefix(run, pos + 1 - start);
  }

  lemma ValueSnoc(digits: string, c: char)
    requires AllDigits(digits) && IsDigit(c)
    ensures AllDigits(digits + [c]) && Value(digits + [c]) == Value(digits) * 10 + DigitValue(c)
  {
    assert (digits + [c])[..|digits|] == digits;
  }

  method WithoutNewline(line: string) returns (text: string)
    ensures text == StripNewline(line)
  {
    text := line;
    if text != "" && text[|text| - 1] == '\n' {
      text := text[..|text| - 1];
      if text != "" && text[|text| - 1] == '\r' {
        text := text[..|text| - 1];
      }
    }
  }

  /** `parse_ack`. A failed parse leaves the caller's `seq` and `status` as they were. */
  method ParseAck(line: string, seqIn: uint32, statusIn: AckStatus)
    returns (accepted: bool, seqNo: uint32, status: AckStatus)
    ensures accepted <==> Parse(line).Some?
    ensures accepted ==> Parse(line) == Some(Ack(seqNo, status))
    ensures !accepted ==> seqNo == seqIn && status == statusIn
  {
    seqNo, status := seqIn, statusIn;
    var text := WithoutNewline(line);
    if |text| < 4 || text[..4] != "ACK:" {
      return false, seqNo, status;
    }
    var fits, parsed, pos := ReadSequence(text, 4);
    if !fits || pos == 4 || pos >= |text| || text[pos] != ' ' {
      return false, seqNo, status;
    }
    var parsedStatus := StatusOf(text[pos + 1..]);
    if parsedStatus.None? {
      return false, seqNo, status;
    }
    return true, parsed, parsedStatus.value;
  }

  lemma {:induction false} RunReaches(text: string, start: nat, pos: nat)
    requires start <= pos < |text| && AllDigits(text[start..pos]) && IsDigit(text[pos])
    ensures pos + 1 <= DigitsEnd(text, start)
    decreases pos - start
  {
    if start < pos {
      assert text[start] == text[start..pos][0];
      assert text[start + 1..pos] == text[start..pos][1..];
      RunReaches(text, start + 1, pos);
    }
  }

  lemma DigitRunEndsHere(text: string, start: nat, pos: nat)
    requires start <= pos <= |text| && AllDigits(text[start..pos])
    requires pos < |text| ==> !IsDigit(text[pos])
    ensures DigitsEnd(text, start) == pos
  {
    assert text[start..] == text[start..pos] + text[pos..];
    DigitsEndOf(text, text[start..pos], text[pos..], start);
  }
}

/** The text command `SEQ:<n> CMD:HAND_<...>` that the bridge writes to the UART. */
module UartCommand {
  import opened Basics
  import opened Decimal
  import opened AckParser

  predicate ValidCommand(cmd: string) {
    cmd == "OPEN" || cmd == "GRAB" || cmd == "RELEASE" || cmd == "STOP"
  }

  function MapToUart(cmd: string, n: uint32): string {
    if ValidCommand(cmd) then "SEQ:" + ToString(n) + " " + ("CMD:HAND_" + cmd) + "\r" + "\n" else ""
  }

  datatype Command = Command(n: nat, cmd: string)

  /** What a device that matches `SEQ:(\d+) CMD:HAND_(OPEN|GRAB|RELEASE|STOP)` reads off a frame. */
  function ReadCommand(frame: string): Option<Command> {
    match Cut("SEQ:", StripNewline(frame))
    case None => None
    case Some(Fields(digits, name)) =>
      if 9 <= |name| && name[..9] == "CMD:HAND_" && ValidCommand(name[9..])
      then Some(Command(Value(digits), name[9..])) else None
  }

  /** The frame of a valid command is never empty and carries exactly that command and number;
      so two requests never share a frame. */
  lemma FrameCarriesCommand(cmd: string, n: uint32)
    requires ValidCommand(cmd)
    ensures MapToUart(cmd, n) != ""
    ensures ReadCommand(MapToUart(cmd, n)) == Some(Command(n, cmd))
  {
    var name := "CMD:HAND_" + cmd;
    assert name[|name| - 1] == cmd[|cmd| - 1];
    StripText("SEQ:" + ToString(n) + " ", name);
    CutComplete("SEQ:", ToString(n), name);
    ValueOfToString(n);
    assert name[..9] == "CMD:HAND_" && name[9..] == cmd;
  }
}

/** The bridge as a transition system: one action per lock-protected region of the callback, the
    transmit, receive and retry threads. Frames a thread holds between two regions are part of
    the state, and `log` records what the UART and the table have seen. */
module HandBridge {
  import opened Basics
  import opened Decimal
  import opened AckParser
  import opened UartCommand
  import opened RetryPolicies

  /** Where the ROS callback is between its regions. */
  datatype Callback = Idle | Enqueuing(frame: RetryFrame, isStop: bool) | Failing(seqNo: uint32)

  datatype Event =
    | Registered(seqNo: uint32, cmd: string)
    | Attempted(seqNo: uint32, frame: string, ok: bool, time: int)
    | Heard(seqNo: uint32, status: AckStatus, accepted: bool, time: int)

  datatype State = State(
    requests: Requests,
    queue: seq<RetryFrame>,
    stopping: bool,
    nextSeq: uint32,
    latest: uint32,
    callback: Callback,
    tx: Option<RetryFrame>,
    retry: seq<RetryFrame>,
    clock: int,
    log: seq<Event>)

  function Init(start: int): State {
    State(map[], [], false, 1, 0, Idle, None, [], start, [])
  }

  datatype Action =
    | Submit(cmd: string)
    | Enqueue
    | GiveUp
    | TakeFrame
    | Transmit(ok: bool, now: int)
    | ReceiveAck(ack: Ack, now: int)
    | PollRetries(now: int, batch: seq<RetryFrame>)
    | Requeue
    | Shutdown
    | AbandonRetries

  // ---- The regions ----

  /** `fetch_add` on a 32-bit counter. */
  function Successor(n: uint32): uint32 {
    if n == UINT32_MAX then 0 else n + 1
  }

  /** First region of the callback: take a number, let a STOP supersede, register. */
  function DoSubmit(s: State, cmd: string): State {
    if !ValidCommand(cmd) then s
    else
      var n := s.nextSeq;
      var taken := s.(nextSeq := Successor(n));
      if n == 0 then taken
      else
        var frame := MapToUart(cmd, n);
        var table := if cmd == "STOP" then CancelAll(s.requests) else s.requests;
        if n in table then taken.(requests := table)
        else taken.(
          requests := table[n := NewRequest(n, frame, cmd == "STOP")],
          latest := n,
          callback := Enqueuing(RetryFrame(n, frame), cmd == "STOP"),
          log := s.log + [Registered(n, cmd)])
  }

  /** Second region of the callback: STOP goes to the front. */
  function DoEnqueue(s: State): State
    requires s.callback.Enqueuing?
  {
    var f := s.callback.frame;
    if s.stopping then s.(callback := Failing(f.seqNo))
    else s.(callback := Idle, queue := if s.callback.isStop then [f] + s.queue else s.queue + [f])
  }

  function DoGiveUp(s: State): State
    requires s.callback.Failing?
  {
    s.(callback := Idle, requests := Update(s.requests, s.callback.seqNo, SendFailed))
  }

  function DoTakeFrame(s: State): State
    requires s.queue != []
  {
    s.(tx := Some(s.queue[0]), queue := s.queue[1..])
  }

  predicate ShouldTransmit(m: Requests, n: uint32) {
    n in m && Transmittable(m[n])
  }

  /** The transmit region: check, write, mark. `ok` is the outcome of the write. */
  function DoTransmit(s: State, ok: bool, now: int): State
    requires s.tx.Some?
  {
    var f := s.tx.value;
    if !ShouldTransmit(s.requests, f.seqNo) then s.(tx := None, clock := now)
    else s.(
      tx := None,
      clock := now,
      requests := Update(s.requests, f.seqNo, if ok then r => Sent(r, now) else SendFailed),
      log := s.log + [Attempted(f.seqNo, f.frame, ok, now)])
  }

  function DoReceiveAck(s: State, ack: Ack, now: int): State {
    var accepted := ack.seqNo in s.requests && Accepts(s.requests[ack.seqNo], ack.status);
    s.(
      clock := now,
      requests := Update(s.requests, ack.seqNo, r => Acked(r, ack.status, now)),
      log := s.log + [Heard(ack.seqNo, ack.status, accepted, now)])
  }

  function DoPollRetries(s: State, now: int, batch: seq<RetryFrame>): State {
    s.(clock := now, requests := PollAll(s.requests, now), retry := batch)
  }

  /** Retries join the back of the queue, STOP retries too. */
  function DoRequeue(s: State): State
    requires s.retry != []
  {
    s.(retry := s.retry[1..], queue := if s.stopping then s.queue else s.queue + [s.retry[0]])
  }

  ghost predicate Enabled(s: State, a: Action) {
    match a
    case Submit(_) => s.callback == Idle
    case Enqueue => s.callback.Enqueuing?
    case GiveUp => s.callback.Failing?
    case TakeFrame => s.tx == None && !s.stopping && s.queue != []
    case Transmit(_, now) => s.tx.Some? && s.clock <= now
    case ReceiveAck(_, now) => s.clock <= now
    case PollRetries(now, batch) => s.retry == [] && s.clock <= now && RetryBatch(s.requests, now, batch)
    case Requeue => s.retry != []
    case Shutdown => true
    case AbandonRetries => s.stopping
  }

  function Step(s: State, a: Action): State
    requires Enabled(s, a)
  {
    match a
    case Submit(cmd) => DoSubmit(s, cmd)
    case Enqueue => DoEnqueue(s)
    case GiveUp => DoGiveUp(s)
    case TakeFrame => DoTakeFrame(s)
    case Transmit(ok, now) => DoTransmit(s, ok, now)
    case ReceiveAck(ack, now) => DoReceiveAck(s, ack, now)
    case PollRetries(now, batch) => DoPollRetries(s, now, batch)
    case Requeue => DoRequeue(s)
    case Shutdown => s.(stopping := true, queue := [])
    case AbandonRetries => s.(retry := [])
  }

  function StateName(state: RequestState): string {
    match state
    case Queued => "QUEUED"
    case WaitingAck => "WAITING_ACK"
    case Executing => "EXECUTING"
    case RetryQueued => "RETRY_QUEUED"
    case Succeeded => "SUCCEEDED"
    case Preempted => "PREEMPTED"
    case Busy => "BUSY"
    case Error => "ERROR"
    case Superseded => "SUPERSEDED"
    case ResultUnknown => "RESULT_UNKNOWN"
  }

  datatype Reply = Reply(success: bool, message: string)

  /** `status_callback`: the state of the command registered last. */
  function StatusReply(s: State): Reply {
    if s.latest == 0 then Reply(false, "No command submitted")
    else if s.latest !in s.requests then Reply(false, "Request not found")
    else
      var state := s.requests[s.latest].state;
      Reply(state == Succeeded, "SEQ:" + ToString(s.latest) + " STATUS:" + StateName(state))
  }

  /** A run: the states passed and the actions between them. */
  ghost predicate Run(states: seq<State>, actions: seq<Action>) {
    && |states| == |actions| + 1
    && (exists start :: states[0] == Init(start))
    && forall i :: 0 <= i < |actions| ==> Enabled(states[i], actions[i]) && states[i + 1] == Step(states[i], actions[i])
  }
}

/** How the log of a run constrains the table, and the order of events in the log itself. */
module HandBridgeHistory {
  import opened Basics
  import opened Decimal
  import opened AckParser
  import opened UartCommand
  import opened RetryPolicies
  import opened HandBridge
  import opened HandBridgeInvariants

  // ---- What a region does to one request, and to the log ----

  ghost predicate Effect(r: Request, r': Request, now: int) {
    || r' == r
    || r' == Sent(r, now)
    || r' == SendFailed(r)
    || r' == Polled(r, now)
    || r' == Cancelled(r)
    || exists status :: r' == Acked(r, status, now)
  }

  lemma StepEffect(s: State, a: Action, n: uint32)
    requires Enabled(s, a) && n in s.requests
    ensures n in Step(s, a).requests
    ensures Effect(s.requests[n], Step(s, a).requests[n], Step(s, a).clock)
    ensures s.clock <= Step(s, a).clock
  {
    hide Polled, Sent, SendFailed, Acked, Cancelled, MapToUart, ValidCommand, Accepts, Transmittable, RetryBatch;
  }

  /** A region logs at most one event. */
  ghost predicate LogGrows(s: State, s': State) {
    s'.log == s.log || (|s'.log| == |s.log| + 1 && s'.log == s.log + [s'.log[|s.log|]])
  }

  lemma StepLogs(s: State, a: Action)
    requires Enabled(s, a)
    ensures LogGrows(s, Step(s, a))
  {
    hide Polled, Sent, SendFailed, Acked, Cancelled, MapToUart, ValidCommand, Accepts, Transmittable, RetryBatch, Update, PollAll, CancelAll;
  }

  // ---- What each logged event says about the table now ----

  /** The request is not written again before `from`. */
  predicate QuietUntil(r: Request, from: int, clock: int) {
    && (r.state == WaitingAck || r.state == Executing ==> from <= r.deadline)
    && (r.state == RetryQueued ==> from <= clock)
  }

  predicate EventOk(m: Requests, clock: int, e: Event) {
    match e
    case Registered(n, cmd) =>
      n in m && ValidCommand(cmd) && m[n].frame == MapToUart(cmd, n) && m[n].isStop == (cmd == "STOP")
    case Attempted(n, frame, ok, time) =>
      && n in m && m[n].frame == frame && time <= clock
      && m[n].state != Queued
      && (if ok then QuietUntil(m[n], time + ACK_TIMEOUT, clock) else m[n].state == ResultUnknown)
    case Heard(n, status, accepted, time) =>
      && time <= clock
      && (accepted ==>
            && n in m && m[n].state != Queued
            && (if status == InProgress then QuietUntil(m[n], time + EXEC_TIMEOUT, clock)
                else m[n].state == Verdict(status)))
  }

  ghost predicate EventsOk(s: State) {
    forall i :: 0 <= i < |s.log| ==> EventOk(s.requests, s.clock, s.log[i])
  }

  lemma EventKept(s: State, a: Action, e: Event)
    requires Enabled(s, a) && EventOk(s.requests, s.clock, e)
    ensures EventOk(Step(s, a).requests, Step(s, a).clock, e)
  {
    hide Step, Enabled, MapToUart, ValidCommand;
    if e.seqNo in s.requests {
      StepEffect(s, a, e.seqNo);
    } else {
      StepClock(s, a);
    }
  }

  lemma StepClock(s: State, a: Action)
    requires Enabled(s, a)
    ensures s.clock <= Step(s, a).clock
  {
    hide MapToUart, ValidCommand, Update, PollAll, CancelAll, RetryBatch;
  }

  lemma NewEventOk(s: State, a: Action)
    requires TableOk(s.requests) && HandsOk(s) && Enabled(s, a) && |Step(s, a).log| > |s.log|
    ensures EventOk(Step(s, a).requests, Step(s, a).clock, Step(s, a).log[|s.log|])
  {
    hide MapToUart, RetryBatch, PollAll;
    match a
    case Submit(cmd) => SubmitRegisters(s, cmd);
    case _ =>
  }

  lemma EventsKept(s: State, a: Action)
    requires TableOk(s.requests) && HandsOk(s) && EventsOk(s) && Enabled(s, a)
    ensures EventsOk(Step(s, a))
  {
    hide Step, Enabled, EventOk;
    StepLogs(s, a);
    var s' := Step(s, a);
    forall i | 0 <= i < |s'.log|
      ensures EventOk(s'.requests, s'.clock, s'.log[i])
    {
      if i < |s.log| {
        EventKept(s, a, s.log[i]);
      } else {
        NewEventOk(s, a);
      }
    }
  }

  // ---- What each state of a request says about the log ----

  function Attempts(log: seq<Event>, n: uint32): nat {
    if log == [] then 0
    else
      var last := log[|log| - 1];
      Attempts(log[..|log| - 1], n) + if last.Attempted? && last.seqNo == n then 1 else 0
  }

  lemma AttemptsSnoc(log: seq<Event>, e: Event, n: uint32)
    ensures Attempts(log + [e], n) == Attempts(log, n) + if e.Attempted? && e.seqNo == n then 1 else 0
  {
    assert (log + [e])[..|log|] == log;
  }

  lemma {:induction false} AttemptsPositive(log: seq<Event>, n: uint32)
    ensures Attempts(log, n) > 0 <==> exists i :: 0 <= i < |log| && log[i].Attempted? && log[i].seqNo == n
  {
    if log != [] {
      var init := log[..|log| - 1];
      AttemptsPositive(init, n);
      if i :| 0 <= i < |init| && init[i].Attempted? && init[i].seqNo == n {
        assert log[i] == init[i];
      }
    }
  }

  /** Writes a request may have behind it, by state. */
  function AttemptBudget(r: Request): nat {
    match r.state
    case Queued => 0
    case RetryQueued => r.retriesUsed
    case _ => r.retriesUsed + 1
  }

  /** Where a state comes from: the events that must be in the log. */
  ghost predicate Explained(r: Request, log: seq<Event>, stopping: bool) {
    && (r.state == WaitingAck ==> Attempted(r.seqNo, r.frame, true, r.deadline - ACK_TIMEOUT) in log)
    && (r.state == Executing ==> Heard(r.seqNo, InProgress, true, r.deadline - EXEC_TIMEOUT) in log)
    && (r.state == WaitingAck || r.state == Executing || r.state == RetryQueued ==>
          exists t :: Attempted(r.seqNo, r.frame, true, t) in log)
    && (r.state == Succeeded ==> exists t :: Heard(r.seqNo, Ok, true, t) in log)
    && (r.state == RequestState.Preempted ==> exists t :: Heard(r.seqNo, AckStatus.Preempted, true, t) in log)
    && (r.state == RequestState.Busy ==> exists t :: Heard(r.seqNo, AckStatus.Busy, true, t) in log)
    && (r.state == RequestState.Error ==> exists t :: Heard(r.seqNo, AckStatus.Error, true, t) in log)
    && (r.state == ResultUnknown ==>
          stopping || r.retriesUsed == MAX_RETRIES || exists t :: Attempted(r.seqNo, r.frame, false, t) in log)
    && (r.state == Superseded ==> !r.isStop)
  }

  ghost predicate IsRegistered(log: seq<Event>, n: uint32) {
    exists cmd :: Registered(n, cmd) in log
  }

  ghost predicate StateOk(s: State, n: uint32)
    requires n in s.requests
  {
    var r := s.requests[n];
    && Attempts(s.log, n) <= AttemptBudget(r)
    && Explained(r, s.log, s.stopping)
    && IsRegistered(s.log, n)
    && (r.isStop && Attempts(s.log, n) == 0 ==> r.state == Queued || (r.state == ResultUnknown && s.stopping))
  }

  ghost predicate StatesOk(s: State) {
    forall n :: n in s.requests ==> StateOk(s, n)
  }

  lemma ExplainedLater(r: Request, log: seq<Event>, e: Event, stopping: bool)
    requires Explained(r, log, stopping)
    ensures Explained(r, log + [e], stopping) && Explained(r, log + [e], true) && Explained(r, log, true)
  {
  }

  /** An action that does not log leaves every request in its state or moves it to a state that
      the log it already has explains. */
  lemma QuietStep(r: Request, r': Request, log: seq<Event>, stopping: bool, now: int)
    requires Explained(r, log, stopping) && r.retriesUsed <= MAX_RETRIES
    requires r' == r || r' == Polled(r, now) || r' == Cancelled(r) || (stopping && r' == SendFailed(r))
    ensures Explained(r', log, stopping)
    ensures AttemptBudget(r) <= AttemptBudget(r')
  {
  }

  lemma StatesKept(s: State, a: Action)
    requires TableOk(s.requests) && HandsOk(s) && ShutdownOk(s) && EventsOk(s) && StatesOk(s) && Enabled(s, a)
    ensures StatesOk(Step(s, a))
  {
    hide TableOk, HandsOk, ShutdownOk, EventsOk, Enabled, Step, Explained, Attempts, AttemptBudget, IsRegistered, MapToUart;
    forall n | n in Step(s, a).requests
      ensures StateOk(Step(s, a), n)
    {
      StateKept(s, a, n);
    }
  }

  lemma StateKept(s: State, a: Action, n: uint32)
    requires TableOk(s.requests) && HandsOk(s) && ShutdownOk(s) && EventsOk(s) && StatesOk(s) && Enabled(s, a)
    requires n in Step(s, a).requests
    ensures StateOk(Step(s, a), n)
  {
    match a
    case Submit(cmd) => SubmitState(s, cmd, n);
    case Transmit(ok, now) => TransmitState(s, ok, now, n);
    case ReceiveAck(ack, now) => ReceiveState(s, ack, now, n);
    case _ => OtherState(s, a, n);
  }

  lemma OtherState(s: State, a: Action, n: uint32)
    requires TableOk(s.requests) && ShutdownOk(s) && StatesOk(s) && Enabled(s, a)
    requires !a.Submit? && !a.Transmit? && !a.ReceiveAck?
    requires n in Step(s, a).requests
    ensures StateOk(Step(s, a), n)
  {
    hide Explained, Attempts, AttemptBudget, IsRegistered, MapToUart, RetryBatch, Polled, SendFailed, Cancelled;
    assert StateOk(s, n);
    QuietStep(s.requests[n], Step(s, a).requests[n], s.log, s.stopping, Step(s, a).clock);
    QuietStop(s.requests[n], Step(s, a).requests[n], s.stopping, Step(s, a).clock);
    ExplainedLater(s.requests[n], s.log, Registered(1, ""), s.stopping);
  }

  lemma QuietStop(r: Request, r': Request, stopping: bool, now: int)
    requires r' == r || r' == Polled(r, now) || r' == Cancelled(r) || (stopping && r' == SendFailed(r))
    ensures r'.isStop == r.isStop
    ensures r.isStop && r.state == Queued ==> r'.state == Queued || (r'.state == ResultUnknown && stopping)
    ensures r.state == ResultUnknown ==> r'.state == ResultUnknown
  {
  }

  lemma SubmitState(s: State, cmd: string, n: uint32)
    requires TableOk(s.requests) && EventsOk(s) && StatesOk(s) && s.callback == Idle
    requires n in DoSubmit(s, cmd).requests
    ensures StateOk(DoSubmit(s, cmd), n)
  {
    hide Explained, Attempts, IsRegistered, MapToUart, Cancelled;
    var s' := DoSubmit(s, cmd);
    SubmitRegisters(s, cmd);
    var e := Registered(s.nextSeq, cmd);
    AttemptsSnoc(s.log, e, n);
    if n in s.requests {
      assert StateOk(s, n);
      QuietStep(s.requests[n], s'.requests[n], s.log, s.stopping, 0);
      QuietStop(s.requests[n], s'.requests[n], s.stopping, 0);
      ExplainedLater(s'.requests[n], s.log, e, s.stopping);
      RegisteredLater(s.log, e, n);
    } else {
      NeverAttempted(s, n);
      FreshExplained(s'.requests[n], s'.log, s.stopping);
      RegisteredNow(s.log, n, cmd);
    }
  }

  lemma FreshExplained(r: Request, log: seq<Event>, stopping: bool)
    requires r.state == Queued
    ensures Explained(r, log, stopping)
  {
  }

  lemma RegisteredLater(log: seq<Event>, e: Event, n: uint32)
    requires IsRegistered(log, n)
    ensures IsRegistered(log + [e], n)
  {
    var cmd :| Registered(n, cmd) in log;
    assert Registered(n, cmd) in log + [e];
  }

  lemma RegisteredNow(log: seq<Event>, n: uint32, cmd: string)
    ensures IsRegistered(log + [Registered(n, cmd)], n)
  {
    var log' := log + [Registered(n, cmd)];
    assert log'[|log|] == Registered(n, cmd);
  }

  lemma NeverAttempted(s: State, n: uint32)
    requires EventsOk(s) && n !in s.requests
    ensures Attempts(s.log, n) == 0
  {
    forall i | 0 <= i < |s.log| && s.log[i].Attempted?
      ensures s.log[i].seqNo in s.requests
    {
      assert EventOk(s.requests, s.clock, s.log[i]);
    }
    AttemptsPositive(s.log, n);
  }

  lemma TransmitState(s: State, ok: bool, now: int, n: uint32)
    requires TableOk(s.requests) && HandsOk(s) && StatesOk(s) && s.tx.Some? && s.clock <= now
    requires n in DoTransmit(s, ok, now).requests
    ensures StateOk(DoTransmit(s, ok, now), n)
  {
    hide Attempts, IsRegistered, Explained;
    var f := s.tx.value;
    assert StateOk(s, n);
    if ShouldTransmit(s.requests, f.seqNo) {
      var e := Attempted(f.seqNo, f.frame, ok, now);
      AttemptsSnoc(s.log, e, n);
      RegisteredLater(s.log, e, n);
      ExplainedLater(s.requests[n], s.log, e, s.stopping);
      if n == f.seqNo {
        WrittenExplained(s.requests[n], s.log, ok, now, s.stopping);
      }
    }
  }

  lemma WrittenExplained(r: Request, log: seq<Event>, ok: bool, now: int, stopping: bool)
    requires Transmittable(r)
    ensures Explained(if ok then Sent(r, now) else SendFailed(r), log + [Attempted(r.seqNo, r.frame, ok, now)], stopping)
  {
    var log' := log + [Attempted(r.seqNo, r.frame, ok, now)];
    assert log'[|log|] == Attempted(r.seqNo, r.frame, ok, now);
    assert log'[|log|] in log';
  }

  lemma ReceiveState(s: State, ack: Ack, now: int, n: uint32)
    requires TableOk(s.requests) && StatesOk(s) && s.clock <= now
    requires n in DoReceiveAck(s, ack, now).requests
    ensures StateOk(DoReceiveAck(s, ack, now), n)
  {
    hide Attempts, IsRegistered, Explained;
    assert StateOk(s, n);
    var s' := DoReceiveAck(s, ack, now);
    var e := s'.log[|s.log|];
    AttemptsSnoc(s.log, e, n);
    RegisteredLater(s.log, e, n);
    ExplainedLater(s.requests[n], s.log, e, s.stopping);
    if n == ack.seqNo && Accepts(s.requests[n], ack.status) {
      HeardExplained(s.requests[n], s.log, ack.status, now, s.stopping);
    }
  }

  lemma HeardExplained(r: Request, log: seq<Event>, status: AckStatus, now: int, stopping: bool)
    requires Explained(r, log, stopping) && Accepts(r, status)
    ensures Explained(Acked(r, status, now), log + [Heard(r.seqNo, status, true, now)], stopping)
    ensures AttemptBudget(r) <= AttemptBudget(Acked(r, status, now))
  {
    var log' := log + [Heard(r.seqNo, status, true, now)];
    assert log'[|log|] == Heard(r.seqNo, status, true, now);
    assert log'[|log|] in log';
    if r.state == WaitingAck || r.state == Executing || r.state == RetryQueued {
      var t :| Attempted(r.seqNo, r.frame, true, t) in log;
      assert Attempted(r.seqNo, r.frame, true, t) in log';
    }
  }
}

/** What each action does to one request in a run, written out with the constants of the protocol,
    and what follows for acknowledgements, retries and refused commands. */
module HandBridgeEffects {
  import opened Basics
  import opened Decimal
  import opened AckParser
  import opened UartCommand
  import opened RetryPolicies
  import opened HandBridge
  import opened HandBridgeInvariants
  import opened HandBridgeHistory
  import opened HandBridgeOrder

  lemma RunStep(states: seq<State>, actions: seq<Action>, i: nat)
    requires Run(states, actions) && i < |actions|
    ensures i + 1 < |states| && Enabled(states[i], actions[i]) && states[i + 1] == Step(states[i], actions[i])
    ensures Inv(states[i])
  {
    RunInv(states, actions, i);
  }

  // ---- Commands ----

  /** Anything but the four commands changes nothing at all. */
  lemma OtherCommandsAreIgnored(states: seq<State>, actions: seq<Action>, i: nat)
    requires Run(states, actions) && i < |actions| && actions[i].Submit?
    requires actions[i].cmd !in {"OPEN", "GRAB", "RELEASE", "STOP"}
    ensures states[i + 1] == states[i]
  {
    hide MapToUart;
    assert states[i + 1] == Step(states[i], actions[i]);
  }

  /** A new entry comes from one of the four commands, with the next number and the frame for the
      UART written out, line end included. */
  lemma OnlyCommandsRegister(states: seq<State>, actions: seq<Action>, i: nat, n: uint32)
    requires Run(states, actions) && i < |actions| && n in states[i + 1].requests && n !in states[i].requests
    ensures IsCommand(actions[i]) && n == states[i].nextSeq != 0
    ensures var cmd := actions[i].cmd;
      states[i + 1].requests[n] ==
        Request(n, "SEQ:" + ToString(n) + " CMD:HAND_" + cmd + "\r\n", cmd == "STOP", Queued, 0, 0)
  {
    RunStep(states, actions, i);
    hide Run, MapToUart, HandsOk, NotStranded, EventsOk, StatesOk, PairsOk, Overtaken, StopSilences, StopsAhead, GapOk;
    StepAdvances(states[i], actions[i]);
    SubmitRegistersValid(states[i], actions[i].cmd, n);
    FrameText(actions[i].cmd, n);
  }

  lemma SubmitRegistersValid(s: State, cmd: string, n: uint32)
    requires n in DoSubmit(s, cmd).requests && n !in s.requests
    ensures ValidCommand(cmd)
  {
  }

  /** The exact text of every command's frame. */
  lemma FrameText(cmd: string, n: uint32)
    requires cmd in {"OPEN", "GRAB", "RELEASE", "STOP"}
    ensures MapToUart(cmd, n) == "SEQ:" + ToString(n) + " CMD:HAND_" + cmd + "\r\n"
  {
    Regroup("SEQ:" + ToString(n), " ", "CMD:HAND_", cmd, "\r", "\n");
    assert "\r" + "\n" == "\r\n" && " " + "CMD:HAND_" == " CMD:HAND_";
    hide *;
  }

  lemma Regroup(a: string, b: string, c: string, d: string, e: string, f: string)
    ensures a + b + (c + d) + e + f == a + (b + c) + d + (e + f)
  {
  }

  predicate IsCommand(a: Action) {
    a.Submit? && a.cmd in {"OPEN", "GRAB", "RELEASE", "STOP"}
  }

  /** How many of the four commands were submitted. */
  function Commands(actions: seq<Action>): nat {
    if actions == [] then 0
    else Commands(actions[..|actions| - 1]) + if IsCommand(actions[|actions| - 1]) then 1 else 0
  }

  /** Every command takes the next number, whether it is registered or not, modulo 2^32. */
  lemma {:induction false} EveryCommandTakesANumber(states: seq<State>, actions: seq<Action>, i: nat)
    requires Run(states, actions) && i < |states|
    ensures states[i].nextSeq == (1 + Commands(actions[..i])) % 0x1_0000_0000
  {
    hide Step, Enabled;
    if i > 0 {
      EveryCommandTakesANumber(states, actions, i - 1);
      assert states[i - 1 + 1] == Step(states[i - 1], actions[i - 1]);
      assert actions[..i][..i - 1] == actions[..i - 1];
      NumberTaken(states[i - 1], actions[i - 1]);
      OneMore(1 + Commands(actions[..i - 1]));
    }
  }

  lemma NumberTaken(s: State, a: Action)
    requires Enabled(s, a)
    ensures Step(s, a).nextSeq == if !IsCommand(a) then s.nextSeq else if s.nextSeq == 0xFFFF_FFFF then 0 else s.nextSeq + 1
  {
    hide MapToUart, RetryBatch, Update, PollAll, CancelAll;
  }

  lemma OneMore(k: nat)
    ensures (k + 1) % 0x1_0000_0000 == if k % 0x1_0000_0000 == 0xFFFF_FFFF then 0 else k % 0x1_0000_0000 + 1
  {
  }

  // ---- One request, one action ----

  /** What an action makes of a request, the reasons spelled out. */
  function Becomes(s: State, a: Action, r: Request): Request {
    match a
    case Submit(cmd) =>
      if cmd == "STOP" && s.nextSeq != 0 && !r.isStop && r.state in {Queued, WaitingAck, Executing, RetryQueued}
      then r.(state := Superseded) else r
    case Transmit(ok, now) =>
      if s.tx != Some(RetryFrame(r.seqNo, r.frame)) || r.state !in {Queued, RetryQueued} then r
      else if ok then r.(state := WaitingAck, deadline := now + 1500) else r.(state := ResultUnknown)
    case GiveUp =>
      if s.callback == Failing(r.seqNo) && r.state in {Queued, RetryQueued} then r.(state := ResultUnknown) else r
    case ReceiveAck(ack, now) => if ack.seqNo == r.seqNo then Answered(r, ack.status, now) else r
    case PollRetries(now, _) =>
      if r.state !in {WaitingAck, Executing} || now < r.deadline then r
      else if r.retriesUsed < 2 then r.(state := RetryQueued, retriesUsed := r.retriesUsed + 1)
      else r.(state := ResultUnknown)
    case _ => r
  }

  /** The whole life of a request: in every run each action does to each request just that. */
  lemma EveryChangeHasItsCause(states: seq<State>, actions: seq<Action>, i: nat, n: uint32)
    requires Run(states, actions) && i < |actions| && n in states[i].requests
    ensures states[i].requests[n].seqNo == n && n in states[i + 1].requests
    ensures states[i + 1].requests[n] == Becomes(states[i], actions[i], states[i].requests[n])
  {
    RunStep(states, actions, i);
    hide Run, Becomes, Step, Inv, Enabled;
    var s, a := states[i], actions[i];
    OwnEntry(s, n);
    StepEffectOn(s, a, n);
  }

  lemma StepEffectOn(s: State, a: Action, n: uint32)
    requires Enabled(s, a) && n in s.requests && s.requests[n].seqNo == n
    requires TxHolds(s, n) <==> s.tx == Some(RetryFrame(n, s.requests[n].frame))
    ensures n in Step(s, a).requests && Step(s, a).requests[n] == Becomes(s, a, s.requests[n])
  {
    hide Becomes;
    match a
    case Submit(cmd) => SubmitEffect(s, cmd, n);
    case Transmit(ok, now) => TransmitEffect(s, ok, now, n);
    case ReceiveAck(ack, now) => AckEffect(s, ack, now, n);
    case PollRetries(now, batch) => PollEffect(s, now, batch, n);
    case _ => OtherEffect(s, a, n);
  }

  /** An acknowledgement as the request sees it. */
  function Answered(r: Request, status: AckStatus, now: int): Request {
    match r.state
    case Superseded =>
      (match status
       case Ok => r.(state := Succeeded)
       case Preempted => r.(state := RequestState.Preempted)
       case Error => r.(state := RequestState.Error)
       case _ => r)
    case WaitingAck => Moved(r, status, now)
    case Executing => Moved(r, status, now)
    case RetryQueued => Moved(r, status, now)
    case _ => r
  }

  function Moved(r: Request, status: AckStatus, now: int): Request {
    match status
    case InProgress => r.(state := Executing, deadline := now + 15000)
    case Ok => r.(state := Succeeded)
    case Preempted => r.(state := RequestState.Preempted)
    case Busy => r.(state := RequestState.Busy)
    case Error => r.(state := RequestState.Error)
  }

  /** Entries carry their own number, and the transmitter's frame is its request's. */
  lemma OwnEntry(s: State, n: uint32)
    requires Inv(s) && n in s.requests
    ensures s.requests[n].seqNo == n && s.requests[n].retriesUsed <= 2
    ensures TxHolds(s, n) <==> s.tx == Some(RetryFrame(n, s.requests[n].frame))
  {
    hide NotStranded, EventsOk, StatesOk, PairsOk, Overtaken, StopSilences, GapOk, StopsAhead;
  }

  lemma SubmitEffect(s: State, cmd: string, n: uint32)
    requires s.callback == Idle && n in s.requests
    ensures n in DoSubmit(s, cmd).requests && DoSubmit(s, cmd).requests[n] == Becomes(s, Submit(cmd), s.requests[n])
  {
    hide MapToUart;
  }

  lemma TransmitEffect(s: State, ok: bool, now: int, n: uint32)
    requires s.tx.Some? && n in s.requests && s.requests[n].seqNo == n
    requires TxHolds(s, n) <==> s.tx == Some(RetryFrame(n, s.requests[n].frame))
    ensures n in DoTransmit(s, ok, now).requests
    ensures DoTransmit(s, ok, now).requests[n] == Becomes(s, Transmit(ok, now), s.requests[n])
  {
  }

  lemma AckEffect(s: State, ack: Ack, now: int, n: uint32)
    requires n in s.requests && s.requests[n].seqNo == n
    ensures var s' := DoReceiveAck(s, ack, now);
      n in s'.requests && s'.requests[n] == Becomes(s, ReceiveAck(ack, now), s.requests[n])
  {
  }

  lemma PollEffect(s: State, now: int, batch: seq<RetryFrame>, n: uint32)
    requires n in s.requests
    ensures var s' := DoPollRetries(s, now, batch);
      n in s'.requests && s'.requests[n] == Becomes(s, PollRetries(now, batch), s.requests[n])
  {
  }

  lemma OtherEffect(s: State, a: Action, n: uint32)
    requires Enabled(s, a) && n in s.requests && s.requests[n].seqNo == n
    requires !a.Submit? && !a.Transmit? && !a.ReceiveAck? && !a.PollRetries?
    ensures n in Step(s, a).requests && Step(s, a).requests[n] == Becomes(s, a, s.requests[n])
  {
  }

  /** Nothing but a STOP supersedes a request. */
  lemma OnlyStopSupersedes(states: seq<State>, actions: seq<Action>, i: nat, n: uint32)
    requires Run(states, actions) && i < |actions| && n in states[i].requests
    requires states[i].requests[n].state != Superseded
    requires n in states[i + 1].requests && states[i + 1].requests[n].state == Superseded
    ensures actions[i] == Submit("STOP") && !states[i].requests[n].isStop
  {
    hide Run;
    EveryChangeHasItsCause(states, actions, i, n);
  }

  // ---- Retries ----

  /** The batch of a poll holds a frame of this number. */
  ghost predicate GrantsRetry(a: Action, n: uint32) {
    a.PollRetries? && Among(a.batch, n)
  }

  /** How many polls handed out a retry of this number. */
  ghost function Grants(actions: seq<Action>, n: uint32): nat {
    if actions == [] then 0
    else Grants(actions[..|actions| - 1], n) + if GrantsRetry(actions[|actions| - 1], n) then 1 else 0
  }

  /** The counter in the table counts just the retries that were handed out. */
  lemma {:induction false} RetriesAreCounted(states: seq<State>, actions: seq<Action>, i: nat, n: uint32)
    requires Run(states, actions) && i < |states|
    ensures Grants(actions[..i], n) == if n in states[i].requests then states[i].requests[n].retriesUsed else 0
  {
    hide Step, Enabled, Inv, GrantsRetry, Becomes;
    if i > 0 {
      var s, a := states[i - 1], actions[i - 1];
      RetriesAreCounted(states, actions, i - 1, n);
      assert states[i - 1 + 1] == Step(s, a);
      assert actions[..i][..i - 1] == actions[..i - 1];
      RunStep(states, actions, i - 1);
      if n in s.requests {
        EveryChangeHasItsCause(states, actions, i - 1, n);
        OwnEntry(s, n);
        RetryCounted(s, a, n);
      } else {
        NoneForStrangers(s, a, n);
      }
    }
  }

  lemma RetryCounted(s: State, a: Action, n: uint32)
    requires Enabled(s, a) && n in s.requests && s.requests[n].retriesUsed <= 2
    ensures Becomes(s, a, s.requests[n]).retriesUsed == s.requests[n].retriesUsed + if GrantsRetry(a, n) then 1 else 0
  {
    if a.PollRetries? && Retries(s.requests[n], a.now) {
      var k :| 0 <= k < |a.batch| && a.batch[k] == RetryFrame(n, s.requests[n].frame);
      AmongHere(a.batch, k);
    }
  }

  lemma NoneForStrangers(s: State, a: Action, n: uint32)
    requires Inv(s) && Enabled(s, a) && n !in s.requests
    ensures !GrantsRetry(a, n)
    ensures n in Step(s, a).requests ==> Step(s, a).requests[n].retriesUsed == 0
  {
    hide Step, MapToUart, ValidCommand, HandsOk, NotStranded, EventsOk, StatesOk, PairsOk, Overtaken, StopSilences, StopsAhead, GapOk;
    StepAdvances(s, a);
  }

  // ---- Log and queue ----

  /** What an action adds to the log, the reasons spelled out. */
  function Logged(s: State, a: Action): seq<Event> {
    match a
    case Submit(cmd) =>
      if cmd in {"OPEN", "GRAB", "RELEASE", "STOP"} && s.nextSeq != 0 && s.nextSeq !in s.requests
      then [Registered(s.nextSeq, cmd)] else []
    case Transmit(ok, now) =>
      if s.tx.Some? && s.tx.value.seqNo in s.requests && s.requests[s.tx.value.seqNo].state in {Queued, RetryQueued}
      then [Attempted(s.tx.value.seqNo, s.requests[s.tx.value.seqNo].frame, ok, now)] else []
    case ReceiveAck(ack, now) =>
      var state := if ack.seqNo in s.requests then s.requests[ack.seqNo].state else Queued;
      var takes := state in {WaitingAck, Executing, RetryQueued}
                || (state == Superseded && ack.status in {Ok, AckStatus.Preempted, AckStatus.Error});
      [Heard(ack.seqNo, ack.status, takes, now)]
    case _ => []
  }

  /** Registrations, writes and acknowledgements are logged as they happen, and nothing else is. */
  lemma EveryEventHasItsCause(states: seq<State>, actions: seq<Action>, i: nat)
    requires Run(states, actions) && i < |actions|
    ensures states[i + 1].log == states[i].log + Logged(states[i], actions[i])
  {
    RunStep(states, actions, i);
    hide Run, Inv;
    if actions[i].Transmit? {
      HeldIsGenuine(states[i]);
    }
    hide Enabled;
    LogEffect(states[i], actions[i]);
  }

  lemma HeldIsGenuine(s: State)
    requires Inv(s) && s.tx.Some?
    ensures s.tx.value.seqNo in s.requests && s.requests[s.tx.value.seqNo].frame == s.tx.value.frame
  {
    hide TableOk, NotStranded, EventsOk, StatesOk, PairsOk, Overtaken, StopSilences, StopsAhead, GapOk;
  }

  lemma LogEffect(s: State, a: Action)
    requires Enabled(s, a)
    requires a.Transmit? ==> s.tx.value.seqNo in s.requests && s.requests[s.tx.value.seqNo].frame == s.tx.value.frame
    ensures Step(s, a).log == s.log + Logged(s, a)
  {
    hide MapToUart, RetryBatch, Update, PollAll;
  }

  /** How one frame can get in front of another: only a STOP, and only when it is first queued, goes
      to the front; every other frame joins the back, and frames leave from the front. */
  lemma OnlyStopsOvertake(states: seq<State>, actions: seq<Action>, i: nat)
    requires Run(states, actions) && i < |actions|
    ensures var s, s' := states[i], states[i + 1];
      || s'.queue == s.queue
      || (exists f :: s'.queue == s.queue + [f])
      || (s.queue != [] && s'.queue == s.queue[1..] && s'.tx == Some(s.queue[0]))
      || (s'.stopping && s'.queue == [])
      || (actions[i].Enqueue? && s.callback.Enqueuing? && s.callback.isStop && s'.queue == [s.callback.frame] + s.queue)
  {
    RunStep(states, actions, i);
    hide Run, Inv, Step, Enabled;
    QueueEffect(states[i], actions[i]);
  }

  lemma QueueEffect(s: State, a: Action)
    requires Enabled(s, a)
    ensures var q := Step(s, a).queue;
      || q == s.queue
      || (exists f :: q == s.queue + [f])
      || (s.queue != [] && q == s.queue[1..] && Step(s, a).tx == Some(s.queue[0]))
      || (Step(s, a).stopping && q == [])
      || (a.Enqueue? && s.callback.Enqueuing? && s.callback.isStop && q == [s.callback.frame] + s.queue)
  {
    hide MapToUart, ValidCommand, RetryBatch, Update, PollAll, CancelAll;
  }

  /** A STOP that was just queued is the very next frame the transmitter takes, unless another STOP
      is queued before it gets there. */
  lemma {:induction false} StopJumpsTheQueue(states: seq<State>, actions: seq<Action>, i: nat, j: nat)
    requires Run(states, actions) && i < j < |actions| && actions[i].Enqueue? && actions[j].TakeFrame?
    requires states[i].callback.Enqueuing? && states[i].callback.isStop && !states[i].stopping
    requires forall k :: i < k < j ==> !actions[k].TakeFrame? && !StopEnqueued(states[k], actions[k])
    ensures states[j + 1].tx == Some(states[i].callback.frame)
  {
    hide Step, Enabled, Inv;
    StopStaysInFront(states, actions, i, j);
    RunStep(states, actions, j);
    FrontIsTaken(states[j], actions[j]);
  }

  predicate StopEnqueued(s: State, a: Action) {
    a.Enqueue? && s.callback.Enqueuing? && s.callback.isStop
  }

  lemma {:induction false} StopStaysInFront(states: seq<State>, actions: seq<Action>, i: nat, j: nat)
    requires Run(states, actions) && i < j < |states| && actions[i].Enqueue?
    requires states[i].callback.Enqueuing? && states[i].callback.isStop && !states[i].stopping
    requires forall k :: i < k < j ==> !actions[k].TakeFrame? && !StopEnqueued(states[k], actions[k])
    ensures states[j].stopping || (states[j].queue != [] && states[j].queue[0] == states[i].callback.frame)
    decreases j
  {
    hide Step, Enabled, Inv;
    RunStep(states, actions, j - 1);
    FrontStays(states[j - 1], actions[j - 1]);
    if i < j - 1 {
      StopStaysInFront(states, actions, i, j - 1);
    }
  }

  lemma FrontStays(s: State, a: Action)
    requires Enabled(s, a)
    ensures s.stopping ==> Step(s, a).stopping
    ensures StopEnqueued(s, a) && !s.stopping ==> Step(s, a).queue == [s.callback.frame] + s.queue
    ensures s.queue != [] && !a.TakeFrame? && !StopEnqueued(s, a) && !Step(s, a).stopping ==>
      Step(s, a).queue != [] && Step(s, a).queue[0] == s.queue[0]
  {
    hide MapToUart, ValidCommand, RetryBatch, Update, PollAll, CancelAll;
  }

  lemma FrontIsTaken(s: State, a: Action)
    requires Enabled(s, a) && a.TakeFrame?
    ensures !s.stopping && s.queue != [] && Step(s, a).tx == Some(s.queue[0])
  {
  }

  // ---- Frames in flight ----

  /** All frames in the queue or in a thread's hands. */
  function InFlight(s: State): multiset<RetryFrame> {
    multiset(s.queue) + multiset(s.retry) + InHand(s.tx) + InGap(s.callback)
  }

  function InHand(tx: Option<RetryFrame>): multiset<RetryFrame> {
    if tx.Some? then multiset{tx.value} else multiset{}
  }

  function InGap(callback: Callback): multiset<RetryFrame> {
    if callback.Enqueuing? then multiset{callback.frame} else multiset{}
  }

  /** Frames that an action brings in. */
  function Brought(s: State, a: Action): multiset<RetryFrame> {
    match a
    case Submit(cmd) => if Logged(s, a) == [] then multiset{} else multiset{RetryFrame(s.nextSeq, MapToUart(cmd, s.nextSeq))}
    case PollRetries(_, batch) => multiset(batch)
    case _ => multiset{}
  }

  /** Frames that an action disposes of: the one just transmitted or found stale, and what is refused
      or thrown away after shutdown. */
  function Disposed(s: State, a: Action): multiset<RetryFrame> {
    match a
    case Transmit(_, _) => InHand(s.tx)
    case Enqueue => if s.stopping then InGap(s.callback) else multiset{}
    case Requeue => if s.stopping && s.retry != [] then multiset{s.retry[0]} else multiset{}
    case Shutdown => multiset(s.queue)
    case AbandonRetries => multiset(s.retry)
    case _ => multiset{}
  }

  /** Frames neither vanish nor multiply between the threads. */
  lemma FramesAreConserved(states: seq<State>, actions: seq<Action>, i: nat)
    requires Run(states, actions) && i < |actions|
    ensures InFlight(states[i + 1]) + Disposed(states[i], actions[i]) == InFlight(states[i]) + Brought(states[i], actions[i])
  {
    RunStep(states, actions, i);
    hide Run, Inv, Step, Enabled, InFlight, Brought, Disposed;
    StepConserves(states[i], actions[i]);
  }

  lemma StepConserves(s: State, a: Action)
    requires Enabled(s, a)
    ensures InFlight(Step(s, a)) + Disposed(s, a) == InFlight(s) + Brought(s, a)
  {
    hide InFlight, Brought, Disposed, RetryBatch;
    match a
    case Submit(cmd) =>
      SubmitBrings(s, cmd);
      assert Disposed(s, a) == multiset{} by { NothingDisposed(s, a); }
    case Enqueue => EnqueueConserves(s);
    case TakeFrame => TakeConserves(s);
    case Transmit(ok, now) => TransmitDisposes(s, ok, now);
    case PollRetries(now, batch) => PollBrings(s, now, batch);
    case Requeue => RequeueConserves(s);
    case _ => OthersConserve(s, a);
  }

  lemma NothingDisposed(s: State, a: Action)
    ensures a.Submit? || a.GiveUp? || a.ReceiveAck? ==> Disposed(s, a) == multiset{}
    ensures a.GiveUp? || a.ReceiveAck? || a.Shutdown? || a.AbandonRetries? ==> Brought(s, a) == multiset{}
  {
  }

  lemma EnqueueConserves(s: State)
    requires s.callback.Enqueuing?
    ensures InFlight(DoEnqueue(s)) + Disposed(s, Enqueue) == InFlight(s) + Brought(s, Enqueue)
  {
  }

  lemma FirstApart(frames: seq<RetryFrame>)
    requires frames != []
    ensures multiset(frames) == multiset{frames[0]} + multiset(frames[1..])
  {
    assert frames == [frames[0]] + frames[1..];
  }

  lemma TakeConserves(s: State)
    requires s.tx == None && s.queue != []
    ensures InFlight(DoTakeFrame(s)) + Disposed(s, TakeFrame) == InFlight(s) + Brought(s, TakeFrame)
  {
    FirstApart(s.queue);
  }

  lemma TransmitDisposes(s: State, ok: bool, now: int)
    requires s.tx.Some?
    ensures InFlight(DoTransmit(s, ok, now)) + Disposed(s, Transmit(ok, now)) == InFlight(s) + Brought(s, Transmit(ok, now))
  {
    hide Update, InGap;
    var s' := DoTransmit(s, ok, now);
    assert InHand(s'.tx) == multiset{};
    hide InHand;
    assert s'.queue == s.queue && s'.retry == s.retry && s'.callback == s.callback && s'.tx == None;
  }

  lemma PollBrings(s: State, now: int, batch: seq<RetryFrame>)
    requires s.retry == []
    ensures InFlight(DoPollRetries(s, now, batch)) + Disposed(s, PollRetries(now, batch))
         == InFlight(s) + Brought(s, PollRetries(now, batch))
  {
    hide PollAll;
  }

  lemma RequeueConserves(s: State)
    requires s.retry != []
    ensures InFlight(DoRequeue(s)) + Disposed(s, Requeue) == InFlight(s) + Brought(s, Requeue)
  {
    hide InHand, InGap;
    FirstApart(s.retry);
    var s' := DoRequeue(s);
    assert s'.tx == s.tx && s'.callback == s.callback && s'.retry == s.retry[1..];
    assert multiset(s'.queue) == multiset(s.queue) + if s.stopping then multiset{} else multiset{s.retry[0]};
  }

  lemma OthersConserve(s: State, a: Action)
    requires Enabled(s, a) && (a.GiveUp? || a.ReceiveAck? || a.Shutdown? || a.AbandonRetries?)
    ensures InFlight(Step(s, a)) + Disposed(s, a) == InFlight(s) + Brought(s, a)
  {
    hide Update, InHand, RetryBatch;
    NothingDisposed(s, a);
    var s' := Step(s, a);
    assert s'.tx == s.tx && InGap(s'.callback) == InGap(s.callback);
    hide InGap, Brought;
    assert a.Shutdown? ==> s'.queue == [] && s'.retry == s.retry;
    assert a.AbandonRetries? ==> s'.queue == s.queue && s'.retry == [];
    assert a.GiveUp? || a.ReceiveAck? ==> s'.queue == s.queue && s'.retry == s.retry;
  }

  lemma SubmitBrings(s: State, cmd: string)
    requires s.callback == Idle
    ensures InFlight(DoSubmit(s, cmd)) == InFlight(s) + Brought(s, Submit(cmd))
  {
    hide MapToUart;
  }

  /** Once the workers are told to stop, at most the frame already in the transmitter's hand is written. */
  lemma {:induction false} SilentAfterShutdown(states: seq<State>, actions: seq<Action>, i: nat, j: nat, n: uint32)
    requires Run(states, actions) && i <= j < |states| && states[i].stopping
    ensures states[j].stopping
    ensures states[i].tx == None ==> states[j].tx == None && Attempts(states[j].log, n) == Attempts(states[i].log, n)
    ensures Attempts(states[j].log, n) <= Attempts(states[i].log, n) + 1
    ensures states[j].tx == None || (states[j].tx == states[i].tx && Attempts(states[j].log, n) == Attempts(states[i].log, n))
    decreases j
  {
    hide Step, Enabled, Inv, Attempts;
    if i < j {
      SilentAfterShutdown(states, actions, i, j - 1, n);
      RunStep(states, actions, j - 1);
      StoppingStep(states[j - 1], actions[j - 1], n);
    }
  }

  lemma StoppingStep(s: State, a: Action, n: uint32)
    requires Enabled(s, a) && s.stopping
    ensures var s' := Step(s, a);
      && s'.stopping
      && (s'.tx == s.tx || s'.tx == None)
      && (s.tx == None || s'.tx == s.tx ==> Attempts(s'.log, n) == Attempts(s.log, n))
      && Attempts(s'.log, n) <= Attempts(s.log, n) + 1
  {
    hide MapToUart, RetryBatch, Update, PollAll, CancelAll, Attempts;
    match a
    case Submit(cmd) => AttemptsSnoc(s.log, Registered(s.nextSeq, cmd), n);
    case Transmit(ok, now) => AttemptsSnoc(s.log, Attempted(s.tx.value.seqNo, s.tx.value.frame, ok, now), n);
    case ReceiveAck(ack, now) => AttemptsSnoc(s.log, Step(s, a).log[|s.log|], n);
    case _ =>
  }
}

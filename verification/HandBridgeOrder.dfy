/** The order of events in the log of a run: spacing, finality and STOP priority. */
module HandBridgeOrder {
  import opened Decimal
  import opened AckParser
  import opened UartCommand
  import opened RetryPolicies
  import opened HandBridge
  import opened HandBridgeInvariants
  import opened HandBridgeHistory

  predicate IsStopRegistration(e: Event) {
    e.Registered? && e.cmd == "STOP"
  }

  predicate IsMotionRegistration(e: Event) {
    e.Registered? && e.cmd != "STOP"
  }

  // ---- Pairs ----

  /** `early` comes before `late` in the log of some run. */
  predicate PairOk(early: Event, late: Event) {
    early.seqNo == late.seqNo ==>
      && !late.Registered?
      && (early.Attempted? && late.Attempted? ==> early.ok && early.time + ACK_TIMEOUT <= late.time)
      && (early.Heard? && early.accepted && late.Attempted? ==>
            early.status == InProgress && early.time + EXEC_TIMEOUT <= late.time)
      && (early.Attempted? && !early.ok && late.Heard? ==> !late.accepted)
      && (early.Heard? && early.accepted && early.status != InProgress && late.Heard? ==> !late.accepted)
  }

  ghost predicate PairsOk(log: seq<Event>) {
    forall i, j :: 0 <= i < j < |log| && (log[i].Heard? ==> log[i].accepted) ==> PairOk(log[i], log[j])
  }

  lemma NewPairOk(s: State, a: Action, e: Event)
    requires TableOk(s.requests) && Enabled(s, a) && |Step(s, a).log| > |s.log|
    requires EventOk(s.requests, s.clock, e) && (e.Heard? ==> e.accepted)
    ensures PairOk(e, Step(s, a).log[|s.log|])
  {
    hide MapToUart, ValidCommand, PollAll, CancelAll, Update, RetryBatch;
    match a
    case Submit(cmd) => SubmitRegisters(s, cmd);
    case _ =>
  }

  lemma PairsKept(s: State, a: Action)
    requires TableOk(s.requests) && EventsOk(s) && PairsOk(s.log) && Enabled(s, a)
    ensures PairsOk(Step(s, a).log)
  {
    hide Step, Enabled, EventOk, PairOk, TableOk;
    StepLogs(s, a);
    var log := Step(s, a).log;
    forall i, j | 0 <= i < j < |log| && (log[i].Heard? ==> log[i].accepted)
      ensures PairOk(log[i], log[j])
    {
      if j == |s.log| {
        NewPairOk(s, a, s.log[i]);
      }
    }
  }

  // ---- A registered STOP overtakes every earlier motion request ----

  ghost predicate Overtaken(s: State) {
    forall i, j :: 0 <= i < j < |s.log| && IsMotionRegistration(s.log[i]) && IsStopRegistration(s.log[j]) ==>
      s.log[i].seqNo in s.requests && !Active(s.requests[s.log[i].seqNo])
  }

  lemma InactiveStays(s: State, a: Action, n: uint32)
    requires Enabled(s, a) && n in s.requests && !Active(s.requests[n])
    ensures n in Step(s, a).requests && !Active(Step(s, a).requests[n])
  {
    hide Step, Enabled;
    StepEffect(s, a, n);
  }

  lemma StopCancels(s: State, a: Action, e: Event)
    requires Enabled(s, a) && |Step(s, a).log| > |s.log| && IsStopRegistration(Step(s, a).log[|s.log|])
    requires IsMotionRegistration(e) && EventOk(s.requests, s.clock, e)
    ensures e.seqNo in Step(s, a).requests && !Active(Step(s, a).requests[e.seqNo])
  {
    hide MapToUart, RetryBatch, PollAll, Update;
    match a
    case Submit(cmd) => SubmitRegisters(s, cmd);
    case _ =>
  }

  lemma OvertakenKept(s: State, a: Action)
    requires EventsOk(s) && Overtaken(s) && Enabled(s, a)
    ensures Overtaken(Step(s, a))
  {
    hide Step, Enabled, EventOk, Active;
    StepLogs(s, a);
    var s' := Step(s, a);
    forall i, j | 0 <= i < j < |s'.log| && IsMotionRegistration(s'.log[i]) && IsStopRegistration(s'.log[j])
      ensures s'.log[i].seqNo in s'.requests && !Active(s'.requests[s'.log[i].seqNo])
    {
      if j < |s.log| {
        InactiveStays(s, a, s.log[i].seqNo);
      } else {
        StopCancels(s, a, s.log[i]);
      }
    }
  }

  /** Registered before a STOP: never written after it. */
  ghost predicate StopSilences(log: seq<Event>) {
    forall i, j, k :: 0 <= i < j < k < |log| && IsMotionRegistration(log[i]) && IsStopRegistration(log[j]) && log[k].Attempted? ==>
      log[k].seqNo != log[i].seqNo
  }

  lemma AttemptWasActive(s: State, a: Action)
    requires Enabled(s, a) && |Step(s, a).log| > |s.log| && Step(s, a).log[|s.log|].Attempted?
    ensures a.Transmit? && TxHolds(s, Step(s, a).log[|s.log|].seqNo)
    ensures var n := Step(s, a).log[|s.log|].seqNo; n in s.requests && Active(s.requests[n])
  {
    hide MapToUart, RetryBatch, PollAll, Update, CancelAll, ValidCommand;
  }

  lemma SilenceKept(s: State, a: Action)
    requires Overtaken(s) && StopSilences(s.log) && Enabled(s, a)
    ensures StopSilences(Step(s, a).log)
  {
    hide Step, Enabled, Active;
    StepLogs(s, a);
    var log := Step(s, a).log;
    forall i, j, k | 0 <= i < j < k < |log| && IsMotionRegistration(log[i]) && IsStopRegistration(log[j]) && log[k].Attempted?
      ensures log[k].seqNo != log[i].seqNo
    {
      if k == |s.log| {
        AttemptWasActive(s, a);
      }
    }
  }

  // ---- A registered STOP is written before any motion frame ----

  /** Every frame of `q` in the queue has a frame of `p` somewhere in front of it. */
  ghost predicate Precedes(queue: seq<RetryFrame>, p: uint32, q: uint32) {
    forall j :: 0 <= j < |queue| && queue[j].seqNo == q ==> Among(queue[..j], p)
  }

  ghost predicate Ahead(s: State, p: uint32, q: uint32) {
    TxHolds(s, p) || (!TxHolds(s, q) && Precedes(s.queue, p, q))
  }

  /** A STOP that has not been written is ahead of every motion request still alive. */
  ghost predicate StopsAhead(s: State) {
    forall p, q :: p in s.requests && q in s.requests && Unwritten(s, p) && Alive(s, q) ==> Ahead(s, p, q)
  }

  predicate Unwritten(s: State, p: uint32)
    requires p in s.requests
  {
    s.requests[p].isStop && Attempts(s.log, p) == 0
  }

  predicate Alive(s: State, q: uint32)
    requires q in s.requests
  {
    !s.requests[q].isStop && Active(s.requests[q])
  }

  /** Between registering and enqueueing a STOP there is no motion request alive. */
  ghost predicate GapOk(s: State) {
    s.callback.Enqueuing? && s.callback.isStop ==> forall q :: q in s.requests ==> !Alive(s, q)
  }

  lemma StillEnqueuing(s: State, a: Action)
    requires Enabled(s, a) && !a.Submit? && Step(s, a).callback.Enqueuing?
    ensures s.callback == Step(s, a).callback
  {
    hide MapToUart, RetryBatch, Update, PollAll;
  }

  lemma SubmittedStopIsAlone(s: State, cmd: string, q: uint32)
    requires s.callback == Idle && DoSubmit(s, cmd).callback.Enqueuing? && DoSubmit(s, cmd).callback.isStop
    requires q in DoSubmit(s, cmd).requests
    ensures !Alive(DoSubmit(s, cmd), q)
  {
    hide MapToUart;
    SubmitRegisters(s, cmd);
  }

  lemma GapKept(s: State, a: Action)
    requires TableOk(s.requests) && GapOk(s) && Enabled(s, a)
    ensures GapOk(Step(s, a))
  {
    var s' := Step(s, a);
    if s'.callback.Enqueuing? && s'.callback.isStop {
      if a.Submit? {
        forall q | q in s'.requests ensures !Alive(s', q) { SubmittedStopIsAlone(s, a.cmd, q); }
      } else {
        StillEnqueuing(s, a);
        StepAdvances(s, a);
        hide Step, Enabled, Active;
        forall q | q in s'.requests
          ensures !Alive(s', q)
        {
          assert !Alive(s, q) && Progress(s.requests[q], s'.requests[q]);
          if !Active(s.requests[q]) {
            InactiveStays(s, a, q);
          }
        }
      }
    }
  }

  lemma PrecedesSnoc(queue: seq<RetryFrame>, f: RetryFrame, p: uint32, q: uint32)
    requires Precedes(queue, p, q) && (f.seqNo == q ==> Among(queue, p))
    ensures Precedes(queue + [f], p, q)
  {
    var longer := queue + [f];
    forall j | 0 <= j < |longer| && longer[j].seqNo == q
      ensures Among(longer[..j], p)
    {
      assert longer[..j] == queue[..j];
      assert queue[..|queue|] == queue;
    }
  }

  lemma PrecedesTail(queue: seq<RetryFrame>, p: uint32, q: uint32)
    requires Precedes(queue, p, q) && queue != [] && queue[0].seqNo != p
    ensures queue[0].seqNo != q && Precedes(queue[1..], p, q)
  {
    assert queue[..0] == [];
    forall j | 0 <= j < |queue[1..]| && queue[1..][j].seqNo == q
      ensures Among(queue[1..][..j], p)
    {
      assert queue[j + 1].seqNo == q;
      AmongTail(queue[..j + 1], p);
      assert queue[..j + 1][1..] == queue[1..][..j];
    }
  }

  /** Everything the order proofs need to know about a state. */
  ghost predicate Inv(s: State) {
    && TableOk(s.requests) && HandsOk(s) && ShutdownOk(s) && NotStranded(s)
    && EventsOk(s) && StatesOk(s)
    && PairsOk(s.log) && Overtaken(s) && StopSilences(s.log)
    && GapOk(s) && StopsAhead(s)
  }

  /** An unwritten STOP is in the queue or being written, unless the bridge is shutting down. */
  lemma StopIsPlaced(s: State, p: uint32, q: uint32)
    requires Inv(s) && !s.stopping && p in s.requests && Unwritten(s, p)
    requires q in s.requests && Alive(s, q)
    ensures Among(s.queue, p) || TxHolds(s, p)
  {
    hide TableOk, EventsOk, PairsOk, Overtaken, StopSilences, StopsAhead, Among, Explained;
    assert StateOk(s, p);
    assert Carried(s, p);
  }

  lemma AttemptsGrow(s: State, a: Action, n: uint32)
    requires Enabled(s, a)
    ensures Attempts(s.log, n) <= Attempts(Step(s, a).log, n)
  {
    hide Step, Enabled, Attempts;
    StepLogs(s, a);
    if |Step(s, a).log| > |s.log| {
      AttemptsSnoc(s.log, Step(s, a).log[|s.log|], n);
    }
  }

  lemma AheadOfNew(s: State, cmd: string, p: uint32, q: uint32)
    requires HandsOk(s) && s.callback == Idle
    requires q in DoSubmit(s, cmd).requests && q !in s.requests
    ensures Ahead(DoSubmit(s, cmd), p, q)
  {
    hide MapToUart, ValidCommand, CancelAll, Among;
    var s' := DoSubmit(s, cmd);
    SubmitRegisters(s, cmd);
    forall j | 0 <= j < |s.queue|
      ensures s.queue[j].seqNo != q
    {
      assert Genuine(s.requests, s.queue[j]);
    }
  }

  lemma AheadKept(s: State, a: Action, p: uint32, q: uint32)
    requires Inv(s) && Enabled(s, a) && p in s.requests && q in s.requests
    requires Unwritten(s, p) && Alive(s, q) && Ahead(s, p, q)
    requires Attempts(Step(s, a).log, p) == 0
    ensures Ahead(Step(s, a), p, q)
  {
    hide MapToUart, ValidCommand, CancelAll, Update, PollAll, RetryBatch, Among, Precedes, Attempts, Explained;
    hide TableOk, EventsOk, PairsOk, Overtaken, StopSilences, NotStranded, StopsAhead;
    match a
    case Submit(cmd) =>
    case Enqueue =>
      if !s.stopping {
        assert !s.callback.isStop;
        StopIsPlaced(s, p, q);
        AheadSnoc(s, s.callback.frame, p, q);
      }
    case TakeFrame =>
      if s.queue[0].seqNo != p {
        PrecedesTail(s.queue, p, q);
      }
    case Transmit(ok, now) =>
      if TxHolds(s, p) {
        assert StateOk(s, p);
        AttemptsSnoc(s.log, Attempted(p, s.tx.value.frame, ok, now), p);
        assert s.queue == [];
        PrecedesNone(p, q);
      }
    case Requeue =>
      if !s.stopping {
        StopIsPlaced(s, p, q);
        AheadSnoc(s, s.retry[0], p, q);
      }
    case Shutdown => PrecedesNone(p, q);
    case _ =>
  }

  lemma PrecedesNone(p: uint32, q: uint32)
    ensures Precedes([], p, q)
  {
  }

  lemma AheadSnoc(s: State, f: RetryFrame, p: uint32, q: uint32)
    requires Ahead(s, p, q) && (Among(s.queue, p) || TxHolds(s, p))
    ensures TxHolds(s, p) || (!TxHolds(s, q) && Precedes(s.queue + [f], p, q))
  {
    if !TxHolds(s, p) {
      PrecedesSnoc(s.queue, f, p, q);
    }
  }

  lemma StopsAheadKept(s: State, a: Action)
    requires Inv(s) && Enabled(s, a)
    ensures StopsAhead(Step(s, a))
  {
    hide Step, Enabled, Attempts, Active, Ahead;
    hide HandsOk, TableOk, EventsOk, PairsOk, Overtaken, StopSilences, NotStranded, StatesOk, ShutdownOk, GapOk;
    var s' := Step(s, a);
    forall p, q | p in s'.requests && q in s'.requests && Unwritten(s', p) && Alive(s', q)
      ensures Ahead(s', p, q)
    {
      StepAdvances(s, a);
      AttemptsGrow(s, a, p);
      if q !in s.requests {
        NewestIsLast(s, a, p, q);
      } else if p in s.requests {
        if !Active(s.requests[q]) {
          InactiveStays(s, a, q);
        }
        assert Progress(s.requests[p], s'.requests[p]) && Progress(s.requests[q], s'.requests[q]);
        AheadKept(s, a, p, q);
      } else {
        NewStopIsAlone(s, a, p, q);
      }
    }
  }

  lemma NewestIsLast(s: State, a: Action, p: uint32, q: uint32)
    requires Inv(s) && Enabled(s, a) && q in Step(s, a).requests && q !in s.requests
    ensures Ahead(Step(s, a), p, q)
  {
    StepAdvances(s, a);
    AheadOfNew(s, a.cmd, p, q);
  }

  lemma NewStopIsAlone(s: State, a: Action, p: uint32, q: uint32)
    requires Inv(s) && Enabled(s, a) && q in s.requests
    requires p in Step(s, a).requests && p !in s.requests && Step(s, a).requests[p].isStop
    ensures q in Step(s, a).requests && !Alive(Step(s, a), q)
  {
    GapKept(s, a);
    StepAdvances(s, a);
    hide Active, Alive, Inv, CancelAll;
    SubmitRegisters(s, a.cmd);
  }

  /** No motion frame is written between the registration of a STOP and its own first write. */
  ghost predicate StopGoesFirst(log: seq<Event>) {
    forall i, j, k ::
      && 0 <= i < k && 0 <= j < k < |log|
      && IsMotionRegistration(log[i]) && IsStopRegistration(log[j])
      && log[k].Attempted? && log[k].seqNo == log[i].seqNo
      ==> WrittenBetween(log, j, k, log[j].seqNo)
  }

  ghost predicate WrittenBetween(log: seq<Event>, j: int, k: int, n: uint32) {
    exists m :: 0 <= m < |log| && j < m < k && log[m].Attempted? && log[m].seqNo == n
  }

  /** While a live motion frame is in the transmitter's hand, no STOP is waiting for its first write. */
  lemma NoStopIsWaiting(s: State, n: uint32, p: uint32)
    requires StopsAhead(s) && n in s.requests && p in s.requests
    requires Alive(s, n) && TxHolds(s, n) && s.requests[p].isStop
    ensures Attempts(s.log, p) > 0
  {
    hide Attempts, Active, Precedes;
    assert Unwritten(s, p) ==> Ahead(s, p, n);
  }

  lemma StopWasWritten(s: State, a: Action, i: nat, j: nat)
    requires Inv(s) && Enabled(s, a) && |Step(s, a).log| > |s.log|
    requires i < |s.log| && j < |s.log| && IsMotionRegistration(s.log[i]) && IsStopRegistration(s.log[j])
    requires Step(s, a).log[|s.log|].Attempted? && Step(s, a).log[|s.log|].seqNo == s.log[i].seqNo
    ensures WrittenBetween(s.log, j, |s.log|, s.log[j].seqNo)
  {
    var n, p := s.log[i].seqNo, s.log[j].seqNo;
    AttemptWasActive(s, a);
    hide Step, Enabled, Attempts, Active;
    hide HandsOk, TableOk, Overtaken, StopSilences, NotStranded, StatesOk, ShutdownOk, GapOk, StopsAhead, PairsOk, WrittenBetween;
    assert EventOk(s.requests, s.clock, s.log[i]) && EventOk(s.requests, s.clock, s.log[j]);
    NoStopIsWaiting(s, n, p);
    WriteFollowsRegistration(s.log, j);
  }

  lemma WriteFollowsRegistration(log: seq<Event>, j: nat)
    requires PairsOk(log) && j < |log| && log[j].Registered? && Attempts(log, log[j].seqNo) > 0
    ensures WrittenBetween(log, j, |log|, log[j].seqNo)
  {
    hide Attempts;
    AttemptsPositive(log, log[j].seqNo);
    var m :| 0 <= m < |log| && log[m].Attempted? && log[m].seqNo == log[j].seqNo;
    assert m < j ==> PairOk(log[m], log[j]);
  }

  lemma StopFirstKept(s: State, a: Action)
    requires Inv(s) && StopGoesFirst(s.log) && Enabled(s, a)
    ensures StopGoesFirst(Step(s, a).log)
  {
    hide Step, Enabled, Inv;
    StepLogs(s, a);
    var log := Step(s, a).log;
    forall i, j, k | 0 <= i < k && 0 <= j < k < |log| && IsMotionRegistration(log[i]) && IsStopRegistration(log[j])
        && log[k].Attempted? && log[k].seqNo == log[i].seqNo
      ensures WrittenBetween(log, j, k, log[j].seqNo)
    {
      if k == |s.log| {
        StopWasWritten(s, a, i, j);
      } else {
        assert WrittenBetween(s.log, j, k, s.log[j].seqNo);
      }
      assert WrittenBetween(s.log, j, k, s.log[j].seqNo);
      var m :| 0 <= m < |s.log| && j < m < k && s.log[m].Attempted? && s.log[m].seqNo == s.log[j].seqNo;
      assert log[m] == s.log[m];
    }
  }

  // ---- Runs ----

  lemma InitInv(start: int)
    ensures Inv(Init(start)) && StopGoesFirst(Init(start).log)
  {
  }

  lemma StepInv(s: State, a: Action)
    requires Inv(s) && Enabled(s, a)
    ensures Inv(Step(s, a))
  {
    hide Step, Enabled, TableOk, HandsOk, ShutdownOk, NotStranded, EventsOk, StatesOk, PairsOk, Overtaken, StopSilences, GapOk, StopsAhead;
    TableKept(s, a);
    HandsKept(s, a);
    ShutdownKept(s, a);
    NotStrandedKept(s, a);
    EventsKept(s, a);
    StatesKept(s, a);
    PairsKept(s, a);
    OvertakenKept(s, a);
    SilenceKept(s, a);
    GapKept(s, a);
    StopsAheadKept(s, a);
  }

  lemma {:induction false} RunInv(states: seq<State>, actions: seq<Action>, i: nat)
    requires Run(states, actions) && i < |states|
    ensures Inv(states[i]) && StopGoesFirst(states[i].log)
  {
    hide Step, Enabled, Inv, StopGoesFirst;
    if i == 0 {
      var start :| states[0] == Init(start);
      InitInv(start);
    } else {
      RunInv(states, actions, i - 1);
      assert Enabled(states[i - 1], actions[i - 1]) && states[i - 1 + 1] == Step(states[i - 1], actions[i - 1]);
      StepInv(states[i - 1], actions[i - 1]);
      StopFirstKept(states[i - 1], actions[i - 1]);
    }
  }
}

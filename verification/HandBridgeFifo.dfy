/** Motion requests are first written in the order of their registration. */
module HandBridgeFifo {
  import opened Basics
  import opened Decimal
  import opened AckParser
  import opened UartCommand
  import opened RetryPolicies
  import opened HandBridge
  import opened HandBridgeInvariants
  import opened HandBridgeHistory
  import opened HandBridgeOrder
  import opened HandBridgeTheorems

  /** What the callback is about to queue is the newest request. */
  ghost predicate CallbackIsNewest(s: State) {
    s.callback.Enqueuing? ==> forall k :: k in s.requests ==> k <= s.callback.frame.seqNo
  }

  predicate Pending(s: State, p: uint32)
    requires p in s.requests
  {
    Alive(s, p) && Attempts(s.log, p) == 0
  }

  /** A motion request still to be written is ahead of every later one. */
  ghost predicate MotionsInOrder(s: State) {
    forall p, q :: p in s.requests && q in s.requests && p < q && Pending(s, p) && Alive(s, q) ==> Ahead(s, p, q)
  }

  /** When a later motion request has been written, no earlier one is still to be written first. */
  ghost predicate NoneLeftBehind(s: State) {
    forall p, q :: p in s.requests && q in s.requests && p < q && !s.requests[q].isStop && Attempts(s.log, q) > 0 ==>
      !Pending(s, p)
  }

  ghost predicate WrittenBefore(log: seq<Event>, k: nat, p: uint32) {
    exists m :: 0 <= m < |log| && m < k && log[m].Attempted? && log[m].seqNo == p
  }

  ghost predicate Motion(s: State, n: uint32) {
    n in s.requests && !s.requests[n].isStop
  }

  /** The log shows it: before a write of a later motion request there is one of every earlier motion
      request that is ever written. */
  ghost predicate FirstWritesOrdered(s: State) {
    forall p, q, k, m ::
      && 0 <= k < |s.log| && 0 <= m < |s.log| && Motion(s, p) && Motion(s, q) && p < q
      && s.log[k].Attempted? && s.log[k].seqNo == q && s.log[m].Attempted? && s.log[m].seqNo == p
      ==> WrittenBefore(s.log, k, p)
  }

  ghost predicate FifoInv(s: State) {
    CallbackIsNewest(s) && MotionsInOrder(s) && NoneLeftBehind(s) && FirstWritesOrdered(s)
  }

  // ---- The callback ----

  lemma NewestKept(s: State, a: Action)
    requires TableOk(s.requests) && Numbered(s) && CallbackIsNewest(s) && Enabled(s, a)
    ensures CallbackIsNewest(Step(s, a))
    ensures forall k :: k in Step(s, a).requests && k !in s.requests ==> forall j :: j in s.requests ==> j < k
  {
    hide Registrations;
    StepAdvances(s, a);
    hide TableOk;
    if a.Submit? {
      SubmitRegisters(s, a.cmd);
      hide DoSubmit, MapToUart, ValidCommand;
    } else {
      NewestWaits(s, a);
    }
  }

  lemma NewestWaits(s: State, a: Action)
    requires Enabled(s, a) && !a.Submit?
    ensures Step(s, a).requests.Keys == s.requests.Keys
    ensures Step(s, a).callback.Enqueuing? ==> Step(s, a).callback == s.callback
  {
    hide MapToUart, RetryBatch;
  }

  // ---- The queue ----

  /** A motion request still to be written is in the queue or the transmitter when there is a later one. */
  lemma PendingIsPlaced(s: State, p: uint32, q: uint32)
    requires Inv(s) && CallbackIsNewest(s) && !s.stopping
    requires p in s.requests && q in s.requests && p < q && Pending(s, p)
    ensures Among(s.queue, p) || TxHolds(s, p)
  {
    hide HandsOk, PairsOk, Overtaken, StopSilences, StopsAhead, GapOk, Among, Attempts, EventsOk;
    PendingIsQueued(s, p);
    assert Carried(s, p);
  }

  lemma PendingIsQueued(s: State, p: uint32)
    requires TableOk(s.requests) && StatesOk(s) && p in s.requests && Pending(s, p)
    ensures s.requests[p].state == Queued
  {
    hide Attempts, IsRegistered;
    assert StateOk(s, p);
    AttemptsPositive(s.log, p);
  }

  lemma PendingAheadKept(s: State, a: Action, p: uint32, q: uint32)
    requires Inv(s) && CallbackIsNewest(s) && Enabled(s, a) && p in s.requests && q in s.requests && p < q
    requires Pending(s, p) && Alive(s, q) && Ahead(s, p, q)
    requires Attempts(Step(s, a).log, p) == 0
    ensures Ahead(Step(s, a), p, q)
  {
    hide MapToUart, ValidCommand, CancelAll, Update, PollAll, RetryBatch, Among, Precedes, Attempts, Explained;
    hide TableOk, EventsOk, PairsOk, Overtaken, StopSilences, NotStranded, StopsAhead, StatesOk, CallbackIsNewest, HandsOk;
    match a
    case Enqueue =>
      if !s.stopping {
        assert !s.callback.isStop;
        PendingIsPlaced(s, p, q);
        AheadSnoc(s, s.callback.frame, p, q);
      }
    case TakeFrame =>
      if s.queue[0].seqNo != p {
        PrecedesTail(s.queue, p, q);
      }
    case Transmit(ok, now) =>
      if TxHolds(s, p) {
        PendingIsQueued(s, p);
        AttemptsSnoc(s.log, Attempted(p, s.tx.value.frame, ok, now), p);
      }
    case Requeue =>
      if !s.stopping {
        PendingIsPlaced(s, p, q);
        AheadSnoc(s, s.retry[0], p, q);
      }
    case Shutdown => PrecedesNone(p, q);
    case _ =>
  }

  lemma WasPending(s: State, a: Action, p: uint32)
    requires Inv(s) && Enabled(s, a) && p in s.requests && p in Step(s, a).requests && Alive(Step(s, a), p)
    ensures Alive(s, p)
    ensures Pending(Step(s, a), p) ==> Pending(s, p)
  {
    hide Step, Enabled, Attempts, Active;
    StepAdvances(s, a);
    AttemptsGrow(s, a, p);
    assert Progress(s.requests[p], Step(s, a).requests[p]);
    if !Active(s.requests[p]) {
      InactiveStays(s, a, p);
    }
  }

  lemma OrderKept(s: State, a: Action)
    requires Inv(s) && Numbered(s) && CallbackIsNewest(s) && MotionsInOrder(s) && Enabled(s, a)
    ensures MotionsInOrder(Step(s, a))
  {
    hide Step, Enabled, Ahead, Inv, Alive, Pending, CallbackIsNewest, Numbered;
    var s' := Step(s, a);
    InvTable(s);
    NewestKept(s, a);
    forall p, q | p in s'.requests && q in s'.requests && p < q && Pending(s', p) && Alive(s', q)
      ensures Ahead(s', p, q)
    {
      PendingMeans(s', p);
      if q !in s.requests {
        NewestIsLast(s, a, p, q);
      } else {
        assert p in s.requests;
        WasPending(s, a, p);
        WasPending(s, a, q);
        PendingAheadKept(s, a, p, q);
      }
    }
  }

  lemma InvTable(s: State)
    requires Inv(s)
    ensures TableOk(s.requests) && HandsOk(s) && EventsOk(s) && StatesOk(s)
  {
  }

  lemma PendingMeans(s: State, p: uint32)
    requires p in s.requests && Pending(s, p)
    ensures Alive(s, p) && Attempts(s.log, p) == 0
  {
  }

  // ---- The log ----

  /** The frame being written is alive and belongs to no later request than any pending one. */
  lemma WriterIsFirst(s: State, p: uint32, q: uint32)
    requires MotionsInOrder(s) && p in s.requests && q in s.requests && p < q && Alive(s, q) && TxHolds(s, q)
    ensures !Pending(s, p)
  {
    hide Pending, Alive, Precedes;
    assert Pending(s, p) ==> Ahead(s, p, q);
  }

  lemma LeftBehindKept(s: State, a: Action)
    requires Inv(s) && Numbered(s) && MotionsInOrder(s) && NoneLeftBehind(s) && CallbackIsNewest(s) && Enabled(s, a)
    ensures NoneLeftBehind(Step(s, a))
  {
    hide Step, Enabled, Inv, Alive, Pending, Numbered, Attempts, MotionsInOrder;
    var s' := Step(s, a);
    InvTable(s);
    NewestKept(s, a);
    StepAdvances(s, a);
    forall p, q | p in s'.requests && q in s'.requests && p < q && !s'.requests[q].isStop && Attempts(s'.log, q) > 0
      ensures !Pending(s', p)
    {
      if Pending(s', p) {
        PendingMeans(s', p);
        WrittenIsKnown(s, a, q);
        assert p in s.requests;
        WasPending(s, a, p);
        assert Progress(s.requests[q], s'.requests[q]);
        WriteNow(s, a, q);
        if Attempts(s.log, q) == 0 {
          WriterIsFirst(s, p, q);
        }
      }
    }
  }

  /** A request that was written was in the table before this action. */
  lemma WrittenIsKnown(s: State, a: Action, q: uint32)
    requires Inv(s) && Enabled(s, a) && Attempts(Step(s, a).log, q) > 0
    ensures q in s.requests
  {
    hide Step, Enabled, Attempts;
    InvTable(s);
    hide Inv;
    if q !in s.requests {
      NeverAttempted(s, q);
      WriteNow(s, a, q);
    }
  }

  lemma WriteNow(s: State, a: Action, q: uint32)
    requires Enabled(s, a)
    ensures Attempts(Step(s, a).log, q) > Attempts(s.log, q) ==>
      && |Step(s, a).log| > |s.log| && Step(s, a).log[|s.log|].Attempted? && Step(s, a).log[|s.log|].seqNo == q
      && TxHolds(s, q) && q in s.requests && Active(s.requests[q])
      && (!s.requests[q].isStop ==> Alive(s, q))
  {
    hide Step, Enabled, Attempts, Active;
    StepLogs(s, a);
    if |Step(s, a).log| > |s.log| {
      AttemptsSnoc(s.log, Step(s, a).log[|s.log|], q);
      if Step(s, a).log[|s.log|].Attempted? {
        AttemptWasActive(s, a);
      }
    }
  }

  lemma FirstWritesKept(s: State, a: Action)
    requires Inv(s) && NoneLeftBehind(s) && FirstWritesOrdered(s) && Enabled(s, a)
    ensures FirstWritesOrdered(Step(s, a))
  {
    hide Step, Enabled, Inv, NoneLeftBehind, Motion, WrittenBefore;
    var s' := Step(s, a);
    StepLogs(s, a);
    forall p, q, k, m |
      && 0 <= k < |s'.log| && 0 <= m < |s'.log| && Motion(s', p) && Motion(s', q) && p < q
      && s'.log[k].Attempted? && s'.log[k].seqNo == q && s'.log[m].Attempted? && s'.log[m].seqNo == p
      ensures WrittenBefore(s'.log, k, p)
    {
      if m < k {
        IsBefore(s'.log, m, k, p);
      } else {
        WrittenWasMotion(s, a, k);
        WrittenWasMotion(s, a, m);
        if m == |s.log| {
          var m' := WrittenAgain(s, a, p, q, k);
          assert WrittenBefore(s.log, k, p);
        }
        StillBefore(s.log, s'.log, k, p);
      }
    }
  }

  lemma IsBefore(log: seq<Event>, m: nat, k: nat, p: uint32)
    requires m < k && m < |log| && log[m].Attempted? && log[m].seqNo == p
    ensures WrittenBefore(log, k, p)
  {
  }

  lemma StillBefore(log: seq<Event>, log': seq<Event>, k: nat, p: uint32)
    requires log <= log' && WrittenBefore(log, k, p)
    ensures WrittenBefore(log', k, p)
  {
    var m :| 0 <= m < |log| && m < k && log[m].Attempted? && log[m].seqNo == p;
    assert log'[m] == log[m];
  }

  /** Requests are motion requests from the start. */
  lemma WrittenWasMotion(s: State, a: Action, k: nat)
    requires Inv(s) && Enabled(s, a) && k < |Step(s, a).log| && Step(s, a).log[k].Attempted?
    ensures Motion(Step(s, a), Step(s, a).log[k].seqNo) ==> Motion(s, Step(s, a).log[k].seqNo)
  {
    hide Step, Enabled, Inv;
    var q := Step(s, a).log[k].seqNo;
    InvTable(s);
    StepAdvances(s, a);
    AttemptsPositive(Step(s, a).log, q);
    WrittenIsKnown(s, a, q);
    assert Progress(s.requests[q], Step(s, a).requests[q]);
  }

  /** When a write of a later motion request is in the log, this can only be a repeated write. */
  lemma WrittenAgain(s: State, a: Action, p: uint32, q: uint32, k: nat) returns (m: nat)
    requires Inv(s) && NoneLeftBehind(s) && Enabled(s, a) && Motion(s, p) && Motion(s, q) && p < q
    requires LogGrows(s, Step(s, a)) && |Step(s, a).log| > |s.log|
    requires Step(s, a).log[|s.log|].Attempted? && Step(s, a).log[|s.log|].seqNo == p
    requires k < |s.log| && s.log[k].Attempted? && s.log[k].seqNo == q
    ensures m < |s.log| && s.log[m].Attempted? && s.log[m].seqNo == p
  {
    hide Step, Enabled, Attempts, Active, Inv;
    AttemptsPositive(s.log, q);
    AttemptsPositive(s.log, p);
    AttemptsSnoc(s.log, Step(s, a).log[|s.log|], p);
    WriteNow(s, a, p);
    m :| 0 <= m < |s.log| && s.log[m].Attempted? && s.log[m].seqNo == p;
  }

  // ---- Runs ----

  lemma InitFifo(start: int)
    ensures FifoInv(Init(start))
  {
  }

  lemma {:induction false} RunFifo(states: seq<State>, actions: seq<Action>, i: nat)
    requires Run(states, actions) && i < |states|
    ensures FifoInv(states[i])
  {
    hide Step, Enabled, Inv, Numbered, CallbackIsNewest, MotionsInOrder, NoneLeftBehind, FirstWritesOrdered;
    if i == 0 {
      var start :| states[0] == Init(start);
      InitFifo(start);
    } else {
      var s, a := states[i - 1], actions[i - 1];
      RunFifo(states, actions, i - 1);
      RunInv(states, actions, i - 1);
      RunNumbered(states, actions, i - 1);
      assert states[i - 1 + 1] == Step(s, a);
      InvTable(s);
      NewestKept(s, a);
      OrderKept(s, a);
      LeftBehindKept(s, a);
      FirstWritesKept(s, a);
    }
  }

  /** First come, first written: when a motion command is written, every motion command registered
      before it has been written at least once by then, or is never written. */
  lemma MotionsAreWrittenInOrder(states: seq<State>, actions: seq<Action>, i: nat, p: uint32, q: uint32, k: nat, m: nat)
    requires Run(states, actions) && i < |states| && k < |states[i].log| && m < |states[i].log|
    requires p in states[i].requests && q in states[i].requests && p < q
    requires !states[i].requests[p].isStop && !states[i].requests[q].isStop
    requires states[i].log[k].Attempted? && states[i].log[k].seqNo == q
    requires states[i].log[m].Attempted? && states[i].log[m].seqNo == p
    ensures exists j :: 0 <= j < k && states[i].log[j].Attempted? && states[i].log[j].seqNo == p
  {
    hide Run, CallbackIsNewest, MotionsInOrder, NoneLeftBehind;
    RunFifo(states, actions, i);
    assert Motion(states[i], p) && Motion(states[i], q);
    assert WrittenBefore(states[i].log, k, p);
  }
}

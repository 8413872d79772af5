/** What every region of the bridge keeps true. */
module HandBridgeInvariants {
  import opened Basics
  import opened Decimal
  import opened AckParser
  import opened UartCommand
  import opened RetryPolicies
  import opened HandBridge

  // ---- The table and the frames in flight ----

  ghost predicate TableOk(m: Requests) {
    forall k :: k in m ==>
      && k != 0 && m[k].seqNo == k
      && m[k].retriesUsed <= MAX_RETRIES
      && (m[k].state == Queued ==> m[k].retriesUsed == 0)
  }

  predicate Genuine(m: Requests, f: RetryFrame) {
    f.seqNo in m && m[f.seqNo].frame == f.frame
  }

  /** Every frame in the queue or in a thread's hands is the frame its request was registered with. */
  ghost predicate HandsOk(s: State) {
    && (forall i :: 0 <= i < |s.queue| ==> Genuine(s.requests, s.queue[i]))
    && (forall i :: 0 <= i < |s.retry| ==> Genuine(s.requests, s.retry[i]))
    && (s.tx.Some? ==> Genuine(s.requests, s.tx.value))
    && (s.callback.Enqueuing? ==>
          && Genuine(s.requests, s.callback.frame)
          && s.requests[s.callback.frame.seqNo].isStop == s.callback.isStop)
    && (s.callback.Failing? ==> s.callback.seqNo in s.requests)
  }

  ghost predicate ShutdownOk(s: State) {
    && (s.stopping ==> s.queue == [])
    && (s.callback.Failing? ==> s.stopping)
  }

  /** From one table to the next: requests are never dropped and each one only makes progress. */
  ghost predicate Advances(m: Requests, m': Requests) {
    forall k :: k in m ==> k in m' && Progress(m[k], m'[k])
  }

  lemma StepAdvances(s: State, a: Action)
    requires TableOk(s.requests) && Enabled(s, a)
    ensures Advances(s.requests, Step(s, a).requests)
    ensures forall k :: k in Step(s, a).requests && k !in s.requests ==>
      a.Submit? && k == s.nextSeq && k != 0
      && Step(s, a).requests[k] == NewRequest(k, MapToUart(a.cmd, k), a.cmd == "STOP")
  {
    hide Polled, Sent, SendFailed, Acked, Cancelled, Progress, MapToUart;
    forall k | k in s.requests
      ensures k in Step(s, a).requests && Progress(s.requests[k], Step(s, a).requests[k])
    {
      var now := match a case Transmit(_, t) => t case ReceiveAck(_, t) => t case PollRetries(t, _) => t case _ => 0;
      var status := if a.ReceiveAck? then a.ack.status else Ok;
      EveryOperationProgresses(s.requests[k], now, status);
      SameProgress(s.requests[k]);
    }
  }

  lemma SameProgress(r: Request)
    requires r.retriesUsed <= MAX_RETRIES
    ensures Progress(r, r)
  {
  }

  lemma TableKept(s: State, a: Action)
    requires TableOk(s.requests) && Enabled(s, a)
    ensures TableOk(Step(s, a).requests)
  {
    hide Step, Enabled, MapToUart;
    StepAdvances(s, a);
  }

  lemma HandsKept(s: State, a: Action)
    requires TableOk(s.requests) && HandsOk(s) && Enabled(s, a)
    ensures HandsOk(Step(s, a))
  {
    hide MapToUart, ValidCommand, PollAll, CancelAll, Update, Retries, NewRequest;
    StepAdvances(s, a);
    var s' := Step(s, a);
    GenuineKept(s.requests, s'.requests);
    hide Genuine;
    match a
    case Submit(cmd) => SubmitKeepsHands(s, cmd);
    case PollRetries(now, batch) => BatchIsGenuine(s.requests, now, batch);
    case _ =>
  }

  lemma GenuineKept(m: Requests, m': Requests)
    requires Advances(m, m')
    ensures forall f :: Genuine(m, f) ==> Genuine(m', f) && m'[f.seqNo].isStop == m[f.seqNo].isStop
  {
    forall f | Genuine(m, f)
      ensures Genuine(m', f) && m'[f.seqNo].isStop == m[f.seqNo].isStop
    {
      assert Progress(m[f.seqNo], m'[f.seqNo]);
    }
  }

  lemma BatchIsGenuine(m: Requests, now: int, batch: seq<RetryFrame>)
    requires RetryBatch(m, now, batch)
    ensures forall i :: 0 <= i < |batch| ==> Genuine(m, batch[i])
  {
    hide Retries;
  }

  lemma SubmitKeepsHands(s: State, cmd: string)
    requires TableOk(s.requests) && HandsOk(s) && s.callback == Idle
    ensures HandsOk(DoSubmit(s, cmd))
  {
    hide MapToUart, ValidCommand, CancelAll;
    var s' := DoSubmit(s, cmd);
    StepAdvances(s, Submit(cmd));
    GenuineKept(s.requests, s'.requests);
    SubmitRegisters(s, cmd);
    hide Genuine, DoSubmit, Advances, TableOk;
    if s'.callback.Enqueuing? {
      IsGenuine(s'.requests, s'.callback.frame);
    }
  }

  lemma IsGenuine(m: Requests, f: RetryFrame)
    requires f.seqNo in m && m[f.seqNo].frame == f.frame
    ensures Genuine(m, f)
  {
  }

  /** The two outcomes of the first callback region: nothing in flight, or a registered request. */
  lemma SubmitRegisters(s: State, cmd: string)
    ensures var s' := DoSubmit(s, cmd);
      || (s'.callback == s.callback && s'.log == s.log && s'.latest == s.latest)
      || (&& s.nextSeq != 0 && s.nextSeq !in s.requests && ValidCommand(cmd)
          && s'.latest == s.nextSeq
          && s'.log == s.log + [Registered(s.nextSeq, cmd)]
          && s'.callback == Enqueuing(RetryFrame(s.nextSeq, MapToUart(cmd, s.nextSeq)), cmd == "STOP")
          && s'.requests == (if cmd == "STOP" then CancelAll(s.requests) else s.requests)
                            [s.nextSeq := NewRequest(s.nextSeq, MapToUart(cmd, s.nextSeq), cmd == "STOP")])
  {
    hide MapToUart, ValidCommand;
  }

  lemma ShutdownKept(s: State, a: Action)
    requires ShutdownOk(s) && Enabled(s, a)
    ensures ShutdownOk(Step(s, a))
  {
    hide MapToUart, ValidCommand, PollAll, CancelAll, Update, NewRequest;
  }

  // ---- No request is stranded ----

  ghost predicate Among(frames: seq<RetryFrame>, n: uint32) {
    exists i :: 0 <= i < |frames| && frames[i].seqNo == n
  }

  predicate TxHolds(s: State, n: uint32) {
    s.tx.Some? && s.tx.value.seqNo == n
  }

  predicate CallbackHolds(s: State, n: uint32) {
    s.callback.Enqueuing? && s.callback.frame.seqNo == n
  }

  ghost predicate Carried(s: State, n: uint32)
    requires n in s.requests
  {
    && (s.requests[n].state == Queued ==> Among(s.queue, n) || TxHolds(s, n) || CallbackHolds(s, n))
    && (s.requests[n].state == RetryQueued ==> Among(s.queue, n) || TxHolds(s, n) || Among(s.retry, n))
  }

  /** While the bridge is up, a request that wants to be written has a frame on its way. */
  ghost predicate NotStranded(s: State) {
    !s.stopping ==> forall n :: n in s.requests ==> Carried(s, n)
  }

  lemma AmongTail(frames: seq<RetryFrame>, n: uint32)
    requires frames != []
    ensures Among(frames, n) <==> frames[0].seqNo == n || Among(frames[1..], n)
  {
    if i :| 0 <= i < |frames| && frames[i].seqNo == n {
      if i > 0 {
        assert frames[1..][i - 1].seqNo == n;
      }
    }
    if i :| 0 <= i < |frames[1..]| && frames[1..][i].seqNo == n {
      assert frames[i + 1].seqNo == n;
    }
  }

  lemma AmongConcat(a: seq<RetryFrame>, b: seq<RetryFrame>, n: uint32)
    ensures Among(a + b, n) <==> Among(a, n) || Among(b, n)
  {
    if i :| 0 <= i < |a| && a[i].seqNo == n {
      assert (a + b)[i].seqNo == n;
    }
    if i :| 0 <= i < |b| && b[i].seqNo == n {
      assert (a + b)[|a| + i].seqNo == n;
    }
  }

  lemma AmongOne(f: RetryFrame)
    ensures Among([f], f.seqNo)
  {
    assert [f][0] == f;
  }

  lemma NotStrandedKept(s: State, a: Action)
    requires TableOk(s.requests) && ShutdownOk(s) && NotStranded(s) && Enabled(s, a)
    ensures NotStranded(Step(s, a))
  {
    hide MapToUart, ValidCommand, PollAll, CancelAll, Update, Retries, NewRequest, Among, RetryBatch;
    var s' := Step(s, a);
    if !s'.stopping {
      forall n | n in s'.requests
        ensures Carried(s', n)
      {
        NotStrandedFor(s, a, n);
      }
    }
  }

  lemma NotStrandedFor(s: State, a: Action, n: uint32)
    requires TableOk(s.requests) && ShutdownOk(s) && NotStranded(s) && Enabled(s, a)
    requires !Step(s, a).stopping && n in Step(s, a).requests
    ensures Carried(Step(s, a), n)
  {
    hide MapToUart, ValidCommand, Retries, Among;
    match a
    case Submit(cmd) => SubmitRegisters(s, cmd);
    case Enqueue =>
      var f := s.callback.frame;
      AmongConcat([f], s.queue, n);
      AmongConcat(s.queue, [f], n);
      AmongOne(f);
    case TakeFrame => AmongTail(s.queue, n);
    case PollRetries(now, batch) =>
      PollStrandsNone(s, now, batch, n);
    case Requeue =>
      AmongTail(s.retry, n);
      AmongConcat(s.queue, [s.retry[0]], n);
      AmongOne(s.retry[0]);
    case _ =>
  }

  lemma PollStrandsNone(s: State, now: int, batch: seq<RetryFrame>, n: uint32)
    requires Enabled(s, PollRetries(now, batch)) && n in s.requests && Carried(s, n)
    ensures Carried(DoPollRetries(s, now, batch), n)
  {
    hide Retries, Among, Polled;
    PolledNotRetried(s.requests[n], now);
    if Retries(s.requests[n], now) {
      var i :| 0 <= i < |batch| && batch[i] == RetryFrame(n, s.requests[n].frame);
      AmongHere(batch, i);
    } else {
      AmongNone(n);
    }
  }

  lemma AmongHere(frames: seq<RetryFrame>, i: nat)
    requires i < |frames|
    ensures Among(frames, frames[i].seqNo)
  {
  }

  lemma AmongNone(n: uint32)
    ensures !Among([], n)
  {
  }

  lemma PolledNotRetried(r: Request, now: int)
    ensures !Retries(r, now) && (Polled(r, now).state == RetryQueued || Polled(r, now).state == Queued)
      ==> Polled(r, now) == r
    ensures Retries(r, now) ==> Polled(r, now).state == RetryQueued
  {
  }
}

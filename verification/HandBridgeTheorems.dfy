/** What the bridge guarantees over every run, whatever the interleaving, the write outcomes, the
    bytes received and the clock readings. */
module HandBridgeTheorems {
  import opened Basics
  import opened Decimal
  import opened AckParser
  import opened UartCommand
  import opened RetryPolicies
  import opened HandBridge
  import opened HandBridgeInvariants
  import opened HandBridgeHistory
  import opened HandBridgeOrder
  import opened HandBridgeEffects

  /** STOP priority, first half: a motion request registered before a STOP is never written after it. */
  lemma StopSilencesEarlierMotion(states: seq<State>, actions: seq<Action>, n: nat, i: nat, j: nat, k: nat)
    requires Run(states, actions) && n < |states|
    requires i < j < k < |states[n].log|
    requires IsMotionRegistration(states[n].log[i]) && IsStopRegistration(states[n].log[j]) && states[n].log[k].Attempted?
    ensures states[n].log[k].seqNo != states[n].log[i].seqNo
  {
    hide Run, TableOk, HandsOk, NotStranded, EventsOk, StatesOk, PairsOk, Overtaken, StopsAhead;
    RunInv(states, actions, n);
  }

  /** STOP priority, second half: whenever a motion frame is written after a STOP was registered,
      that STOP has itself been written in between. */
  lemma StopIsWrittenFirst(states: seq<State>, actions: seq<Action>, n: nat, i: nat, j: nat, k: nat)
    requires Run(states, actions) && n < |states|
    requires i < k && j < k < |states[n].log|
    requires IsMotionRegistration(states[n].log[i]) && IsStopRegistration(states[n].log[j])
    requires states[n].log[k].Attempted? && states[n].log[k].seqNo == states[n].log[i].seqNo
    ensures exists m :: j < m < k && states[n].log[m].Attempted? && states[n].log[m].seqNo == states[n].log[j].seqNo
  {
    hide Run, Inv;
    RunInv(states, actions, n);
    assert WrittenBetween(states[n].log, j, k, states[n].log[j].seqNo);
  }

  /** Until shutdown begins, a request that still has to be written has a frame in the queue or in
      the hands of a thread that will enqueue or write it. */
  lemma NothingIsStranded(states: seq<State>, actions: seq<Action>, i: nat, n: uint32)
    requires Run(states, actions) && i < |states| && !states[i].stopping && n in states[i].requests
    ensures states[i].requests[n].state == Queued ==>
      Among(states[i].queue, n) || TxHolds(states[i], n) || CallbackHolds(states[i], n)
    ensures states[i].requests[n].state == RetryQueued ==>
      Among(states[i].queue, n) || TxHolds(states[i], n) || Among(states[i].retry, n)
  {
    hide Run, TableOk, HandsOk, EventsOk, StatesOk, PairsOk, Overtaken, StopsAhead, Among;
    RunInv(states, actions, i);
    assert Carried(states[i], n);
  }

  /** At most three writes of one number over a whole run. */
  lemma AtMostThreeWrites(states: seq<State>, actions: seq<Action>, i: nat, n: uint32)
    requires Run(states, actions) && i < |states|
    ensures Attempts(states[i].log, n) <= 3
  {
    hide Run, HandsOk, NotStranded, PairsOk, Overtaken, StopsAhead, Attempts, Explained, IsRegistered, EventOk;
    RunInv(states, actions, i);
    if n in states[i].requests {
      assert StateOk(states[i], n);
    } else {
      NeverAttempted(states[i], n);
    }
  }

  /** Two writes of one number: the first one succeeded, they are at least 1500 ms apart, and they
      carry the same bytes, those of the registered command. */
  lemma WritesAreSpacedAndFaithful(states: seq<State>, actions: seq<Action>, n: nat, j: nat, k: nat)
    requires Run(states, actions) && n < |states| && j < k < |states[n].log|
    requires var e, f := states[n].log[j], states[n].log[k]; e.Attempted? && f.Attempted? && e.seqNo == f.seqNo
    ensures var e, f := states[n].log[j], states[n].log[k];
      e.ok && f.time - e.time >= 1500 && e.frame == f.frame
  {
    hide Run, TableOk, HandsOk, NotStranded, StatesOk, Overtaken, StopsAhead;
    RunInv(states, actions, n);
    assert PairOk(states[n].log[j], states[n].log[k]);
    assert EventOk(states[n].requests, states[n].clock, states[n].log[j]);
    assert EventOk(states[n].requests, states[n].clock, states[n].log[k]);
  }

  /** Every write carries the command its number was registered with: the device that reads the
      frame reads back that command and that number. */
  lemma WritesCarryTheirCommand(states: seq<State>, actions: seq<Action>, n: nat, i: nat, k: nat)
    requires Run(states, actions) && n < |states| && i < |states[n].log| && k < |states[n].log|
    requires states[n].log[i].Registered? && states[n].log[k].Attempted? && states[n].log[i].seqNo == states[n].log[k].seqNo
    ensures i < k
    ensures ReadCommand(states[n].log[k].frame) == Some(Command(states[n].log[i].seqNo, states[n].log[i].cmd))
  {
    hide Run, TableOk, HandsOk, NotStranded, StatesOk, Overtaken, StopsAhead, MapToUart, ReadCommand, ValidCommand;
    RunInv(states, actions, n);
    assert EventOk(states[n].requests, states[n].clock, states[n].log[i]);
    assert EventOk(states[n].requests, states[n].clock, states[n].log[k]);
    FrameCarriesCommand(states[n].log[i].cmd, states[n].log[i].seqNo);
    assert k < i ==> PairOk(states[n].log[k], states[n].log[i]);
  }

  /** After an accepted IN_PROGRESS the bridge leaves the device alone for 15 s. */
  lemma QuietWhileExecuting(states: seq<State>, actions: seq<Action>, n: nat, j: nat, k: nat)
    requires Run(states, actions) && n < |states| && j < k < |states[n].log|
    requires var e, f := states[n].log[j], states[n].log[k];
      e.Heard? && e.accepted && e.status == InProgress && f.Attempted? && e.seqNo == f.seqNo
    ensures states[n].log[k].time - states[n].log[j].time >= 15000
  {
    hide Run, TableOk, HandsOk, NotStranded, EventsOk, StatesOk, Overtaken, StopsAhead;
    RunInv(states, actions, n);
    assert PairOk(states[n].log[j], states[n].log[k]);
  }

  /** `t` is the time of the last complete write of this request. */
  ghost predicate LastWrite(log: seq<Event>, r: Request, t: int) {
    && Attempted(r.seqNo, r.frame, true, t) in log
    && forall u :: Attempted(r.seqNo, r.frame, true, u) in log ==> u <= t
  }

  /** `t` is the time of the last IN_PROGRESS accepted for this request. */
  ghost predicate LastProgress(log: seq<Event>, r: Request, t: int) {
    && Heard(r.seqNo, InProgress, true, t) in log
    && forall u :: Heard(r.seqNo, InProgress, true, u) in log ==> u <= t
  }

  /** The next poll acts on every request whose time is up: 1500 ms after its last write, or 15 s
      after its last IN_PROGRESS. If it got fewer than two retries so far it gets one more, otherwise
      it is given up. */
  lemma PollActsOnTime(states: seq<State>, actions: seq<Action>, i: nat, now: int, batch: seq<RetryFrame>, n: uint32)
    requires Run(states, actions) && i < |states| && Enabled(states[i], PollRetries(now, batch))
    requires n in states[i].requests
    ensures var r, r' := states[i].requests[n], Step(states[i], PollRetries(now, batch)).requests[n];
      && (r.state == WaitingAck ==>
            exists t :: LastWrite(states[i].log, r, t)
              && (if now - t < 1500 then r' == r
                  else if Grants(actions[..i], n) < 2 then r'.state == RetryQueued && RetryFrame(n, r.frame) in batch
                  else r'.state == ResultUnknown))
      && (r.state == Executing ==>
            exists t :: LastProgress(states[i].log, r, t)
              && (if now - t < 15000 then r' == r
                  else if Grants(actions[..i], n) < 2 then r'.state == RetryQueued && RetryFrame(n, r.frame) in batch
                  else r'.state == ResultUnknown))
  {
    hide Run, HandsOk, NotStranded, EventsOk, StatesOk, PairsOk, Overtaken, StopsAhead, LastWrite, LastProgress;
    RunInv(states, actions, i);
    var r := states[i].requests[n];
    DeadlineSource(states[i], n);
    RetriesAreCounted(states, actions, i, n);
    assert r.state == WaitingAck ==> LastWrite(states[i].log, r, r.deadline - 1500);
    assert r.state == Executing ==> LastProgress(states[i].log, r, r.deadline - 15000);
  }

  lemma DeadlineSource(s: State, n: uint32)
    requires TableOk(s.requests) && EventsOk(s) && StatesOk(s) && n in s.requests
    ensures var r := s.requests[n];
      && (r.state == WaitingAck ==> LastWrite(s.log, r, r.deadline - 1500))
      && (r.state == Executing ==> LastProgress(s.log, r, r.deadline - 15000))
  {
    hide TableOk, Attempts, IsRegistered, ValidCommand, MapToUart;
    assert s.requests[n].seqNo == n by { EntryNumber(s.requests, n); }
    assert StateOk(s, n);
    var r := s.requests[n];
    forall u | Attempted(n, r.frame, true, u) in s.log
      ensures r.state == WaitingAck ==> u <= r.deadline - 1500
    {
      assert EventOk(s.requests, s.clock, Attempted(n, r.frame, true, u));
    }
    forall u | Heard(n, InProgress, true, u) in s.log
      ensures r.state == Executing ==> u <= r.deadline - 15000
    {
      assert EventOk(s.requests, s.clock, Heard(n, InProgress, true, u));
    }
  }

  lemma EntryNumber(m: Requests, n: uint32)
    requires TableOk(m) && n in m
    ensures m[n].seqNo == n
  {
  }

  // ---- Verdicts ----

  /** A request carries the verdict of a final status exactly when such an acknowledgement was
      accepted for it. */
  lemma VerdictExact(states: seq<State>, actions: seq<Action>, i: nat, n: uint32, status: AckStatus)
    requires Run(states, actions) && i < |states| && n in states[i].requests && status != InProgress
    ensures states[i].requests[n].state == Verdict(status)
       <==> exists t :: Heard(n, status, true, t) in states[i].log
  {
    hide Run, TableOk, HandsOk, NotStranded, EventsOk, StatesOk, PairsOk, Overtaken, StopsAhead;
    RunInv(states, actions, i);
    EntryNumber(states[i].requests, n);
    VerdictInState(states[i], n, status);
  }

  lemma VerdictInState(s: State, n: uint32, status: AckStatus)
    requires EventsOk(s) && StatesOk(s) && n in s.requests && s.requests[n].seqNo == n && status != InProgress
    ensures s.requests[n].state == Verdict(status) <==> exists t :: Heard(n, status, true, t) in s.log
  {
    hide Attempts, IsRegistered, AttemptBudget, ValidCommand, MapToUart;
    assert StateOk(s, n);
    if t :| Heard(n, status, true, t) in s.log {
      assert EventOk(s.requests, s.clock, Heard(n, status, true, t));
    }
  }

  /** A complete write of the number, and later the acknowledgement with this status that was accepted. */
  ghost predicate Earned(log: seq<Event>, n: uint32, status: AckStatus) {
    exists j, k ::
      && 0 <= j < k < |log|
      && log[j].Attempted? && log[j].seqNo == n && log[j].ok
      && log[k].Heard? && log[k].seqNo == n && log[k].status == status && log[k].accepted
  }

  /** A device that acknowledges only numbers that were written to it before. */
  ghost predicate HonestDevice(log: seq<Event>) {
    forall j :: 0 <= j < |log| && log[j].Heard? ==>
      exists i :: 0 <= i < j && log[i].Attempted? && log[i].seqNo == log[j].seqNo
  }

  /** With an honest device a verdict is earned: a complete write of that number comes first, then
      the matching acknowledgement. This includes verdicts reached through SUPERSEDED. */
  lemma VerdictIsEarned(states: seq<State>, actions: seq<Action>, i: nat, n: uint32, status: AckStatus)
    requires Run(states, actions) && i < |states| && n in states[i].requests && status != InProgress
    requires HonestDevice(states[i].log) && states[i].requests[n].state == Verdict(status)
    ensures Earned(states[i].log, n, status)
  {
    hide Run, Inv, HonestDevice, Verdict, PairsOk, Earned;
    VerdictExact(states, actions, i, n, status);
    RunInv(states, actions, i);
    RunPairs(states[i]);
    var t :| Heard(n, status, true, t) in states[i].log;
    AckIsEarned(states[i].log, n, status, t);
  }

  // ---- When a verdict is earned ----

  ghost predicate Written(log: seq<Event>, n: uint32) {
    exists i :: 0 <= i < |log| && log[i].Attempted? && log[i].ok && log[i].seqNo == n
  }

  /** At step `j` an acknowledgement was accepted for a superseded request that was never written. */
  ghost predicate BelievedUnwritten(states: seq<State>, actions: seq<Action>, j: nat, n: uint32, status: AckStatus)
    requires j < |actions| && j < |states|
  {
    && actions[j].ReceiveAck? && actions[j].ack == Ack(n, status)
    && n in states[j].requests && states[j].requests[n].state == Superseded
    && !Written(states[j].log, n)
  }

  /** At step `j` a STOP superseded the request before its first write, while it was still QUEUED. */
  ghost predicate CutOff(states: seq<State>, actions: seq<Action>, j: nat, n: uint32)
    requires j + 1 < |states| && j < |actions|
  {
    && actions[j] == Submit("STOP")
    && n in states[j].requests && states[j].requests[n].state == Queued
    && n in states[j + 1].requests && states[j + 1].requests[n].state == Superseded
  }

  /** A number that was never completely written accepts an acknowledgement exactly in one place:
      superseded, and then only OK, PREEMPTED and ERROR. */
  lemma UnwrittenAcceptsExactly(states: seq<State>, actions: seq<Action>, i: nat, n: uint32, status: AckStatus)
    requires Run(states, actions) && i < |states| && n in states[i].requests && !Written(states[i].log, n)
    ensures Accepts(states[i].requests[n], status)
       <==> states[i].requests[n].state == Superseded && status in {Ok, AckStatus.Preempted, AckStatus.Error}
  {
    hide Run, Inv, Written;
    RunInv(states, actions, i);
    WaitingIsWritten(states[i], n);
  }

  /** Whatever waits for the device has been written; whatever is QUEUED has not. */
  lemma WaitingIsWritten(s: State, n: uint32)
    requires Inv(s) && n in s.requests
    ensures s.requests[n].state in {WaitingAck, Executing, RetryQueued} ==> Written(s.log, n)
    ensures s.requests[n].state == Queued ==> !Written(s.log, n)
  {
    hide HandsOk, NotStranded, PairsOk, Overtaken, StopSilences, StopsAhead, GapOk, Attempts, IsRegistered;
    assert StateOk(s, n);
    if s.requests[n].state in {WaitingAck, Executing, RetryQueued} {
      var t :| Attempted(s.requests[n].seqNo, s.requests[n].frame, true, t) in s.log;
    }
    if i :| 0 <= i < |s.log| && s.log[i].Attempted? && s.log[i].ok && s.log[i].seqNo == n {
      assert EventOk(s.requests, s.clock, s.log[i]);
    }
  }

  /** A request that is superseded or has ended is not written any more. */
  lemma NotWrittenAgain(s: State, a: Action, n: uint32)
    requires Inv(s) && Enabled(s, a) && n in s.requests && !Active(s.requests[n])
    ensures n in Step(s, a).requests && !Active(Step(s, a).requests[n])
    ensures Written(Step(s, a).log, n) <==> Written(s.log, n)
  {
    hide Inv, TableOk, MapToUart, ValidCommand, RetryBatch, PollAll, CancelAll, Update, Written;
    InactiveStays(s, a, n);
    StepLogs(s, a);
    WrittenSnoc(s.log, Step(s, a).log, n);
  }

  lemma WrittenSnoc(log: seq<Event>, log': seq<Event>, n: uint32)
    requires log <= log' && |log'| <= |log| + 1
    ensures Written(log, n) ==> Written(log', n)
    ensures |log'| > |log| && !(log'[|log|].Attempted? && log'[|log|].seqNo == n) ==> (Written(log', n) <==> Written(log, n))
  {
  }

  lemma {:induction false} SilentSince(states: seq<State>, actions: seq<Action>, j: nat, i: nat, n: uint32)
    requires Run(states, actions) && j <= i < |states|
    requires n in states[j].requests && !Active(states[j].requests[n])
    ensures n in states[i].requests && !Active(states[i].requests[n])
    ensures Written(states[i].log, n) <==> Written(states[j].log, n)
    decreases i
  {
    hide Step, Enabled, Inv, Written, StopGoesFirst;
    if j < i {
      SilentSince(states, actions, j, i - 1, n);
      RunInv(states, actions, i - 1);
      assert states[i - 1 + 1] == Step(states[i - 1], actions[i - 1]);
      NotWrittenAgain(states[i - 1], actions[i - 1], n);
    }
  }

  /** A verdict comes from a step that accepted its acknowledgement. */
  lemma {:induction false} VerdictHasStep(states: seq<State>, actions: seq<Action>, i: nat, n: uint32, status: AckStatus) returns (j: nat)
    requires Run(states, actions) && i < |states| && n in states[i].requests
    requires status != InProgress && states[i].requests[n].state == Verdict(status)
    ensures j < i && actions[j].ReceiveAck? && actions[j].ack == Ack(n, status)
    ensures n in states[j].requests && Accepts(states[j].requests[n], status)
    ensures states[j + 1].log == states[j].log + [Heard(n, status, true, actions[j].now)] && states[j + 1].log <= states[i].log
    decreases i
  {
    hide Step, Enabled, Inv, StopGoesFirst, Accepts;
    if i == 0 {
      assert false;
    }
    var s, a := states[i - 1], actions[i - 1];
    assert states[i - 1 + 1] == Step(s, a);
    StepLogs(s, a);
    if n in s.requests && s.requests[n].state == Verdict(status) {
      j := VerdictHasStep(states, actions, i - 1, n, status);
    } else {
      RunInv(states, actions, i - 1);
      VerdictStep(s, a, n, status);
      j := i - 1;
    }
  }

  lemma VerdictStep(s: State, a: Action, n: uint32, status: AckStatus)
    requires Enabled(s, a) && n in Step(s, a).requests && status != InProgress
    requires Step(s, a).requests[n].state == Verdict(status)
    requires n in s.requests ==> s.requests[n].state != Verdict(status)
    ensures a.ReceiveAck? && a.ack == Ack(n, status) && n in s.requests && Accepts(s.requests[n], status)
    ensures Step(s, a).log == s.log + [Heard(n, status, true, a.now)]
  {
    hide MapToUart, ValidCommand, RetryBatch;
  }

  /** A superseded request that was never written was cut off by a STOP while QUEUED. */
  lemma {:induction false} SupersededUnwritten(states: seq<State>, actions: seq<Action>, i: nat, n: uint32) returns (j: nat)
    requires Run(states, actions) && i < |states| && n in states[i].requests
    requires states[i].requests[n].state == Superseded && !Written(states[i].log, n)
    ensures j < i < |states| == |actions| + 1 && CutOff(states, actions, j, n)
    decreases i
  {
    hide Step, Enabled, Inv, Written, StopGoesFirst;
    if i == 0 {
      assert false;
    }
    var s, a := states[i - 1], actions[i - 1];
    assert states[i - 1 + 1] == Step(s, a);
    RunInv(states, actions, i - 1);
    StepLogs(s, a);
    WrittenSnoc(s.log, states[i].log, n);
    SupersededFrom(s, a, n);
    WaitingIsWritten(s, n);
    if s.requests[n].state == Superseded {
      j := SupersededUnwritten(states, actions, i - 1, n);
    } else {
      j := i - 1;
      OnlyStopSupersedes(states, actions, j, n);
    }
  }

  lemma SupersededFrom(s: State, a: Action, n: uint32)
    requires Inv(s) && Enabled(s, a) && n in Step(s, a).requests && Step(s, a).requests[n].state == Superseded
    ensures n in s.requests && s.requests[n].state in {Superseded, Queued, WaitingAck, Executing, RetryQueued}
  {
    hide Step, Enabled, Inv, Rank, MapToUart;
    ChangesStep(s, a, n);
    FreshIsQueued(s, a, n);
  }

  lemma FreshIsQueued(s: State, a: Action, n: uint32)
    requires Inv(s) && Enabled(s, a) && n in Step(s, a).requests
    ensures n !in s.requests ==> Step(s, a).requests[n].state == Queued
  {
    hide Step, Enabled, MapToUart, HandsOk, NotStranded, EventsOk, StatesOk, PairsOk, Overtaken, StopSilences, StopsAhead, GapOk;
    StepAdvances(s, a);
  }

  /** Exactly when a verdict is earned. It lacks an earlier complete write just when its
      acknowledgement was accepted for a superseded, never written request; and that happens just to
      the requests that a STOP caught while they were still QUEUED. */
  lemma VerdictIsEarnedExactly(states: seq<State>, actions: seq<Action>, i: nat, n: uint32, status: AckStatus)
    requires Run(states, actions) && i < |states| && n in states[i].requests && status != InProgress
    requires states[i].requests[n].state == Verdict(status)
    ensures !Earned(states[i].log, n, status) <==> exists j :: 0 <= j < i && BelievedUnwritten(states, actions, j, n, status)
    ensures !Earned(states[i].log, n, status) <==> exists j :: 0 <= j < i && CutOff(states, actions, j, n)
  {
    assert |states| == |actions| + 1;
    hide Run, Inv, Written, Accepts, Verdict, Earned;
    var j := VerdictHasStep(states, actions, i, n, status);
    EarnedByStep(states, actions, i, j, n, status);
    if !Written(states[j].log, n) {
      UnwrittenAcceptsExactly(states, actions, j, n, status);
      assert BelievedUnwritten(states, actions, j, n, status);
      var k := SupersededUnwritten(states, actions, j, n);
    }
    if k :| 0 <= k < i && BelievedUnwritten(states, actions, k, n, status) {
      SilentSince(states, actions, k, i, n);
    }
    if k :| 0 <= k < i && CutOff(states, actions, k, n) {
      CutOffIsUnwritten(states, actions, k, n);
      SilentSince(states, actions, k + 1, i, n);
    }
  }

  lemma EarnedByStep(states: seq<State>, actions: seq<Action>, i: nat, j: nat, n: uint32, status: AckStatus)
    requires j < i < |states| && j < |actions| && actions[j].ReceiveAck?
    requires states[j + 1].log == states[j].log + [Heard(n, status, true, actions[j].now)] && states[j + 1].log <= states[i].log
    ensures Written(states[j].log, n) ==> Earned(states[i].log, n, status)
    ensures !Written(states[i].log, n) ==> !Earned(states[i].log, n, status)
  {
    if k :| 0 <= k < |states[j].log| && states[j].log[k].Attempted? && states[j].log[k].ok && states[j].log[k].seqNo == n {
      assert states[i].log[k] == states[j].log[k];
      assert states[i].log[|states[j].log|] == Heard(n, status, true, actions[j].now);
    }
  }

  lemma CutOffIsUnwritten(states: seq<State>, actions: seq<Action>, j: nat, n: uint32)
    requires Run(states, actions) && j < |actions| && CutOff(states, actions, j, n)
    ensures !Written(states[j + 1].log, n)
  {
    hide Step, Enabled, Inv, Written, StopGoesFirst;
    RunInv(states, actions, j);
    RunInv(states, actions, j + 1);
    WaitingIsWritten(states[j], n);
    assert states[j + 1] == Step(states[j], actions[j]);
    CuttingWritesNothing(states[j], actions[j], n);
  }

  lemma CuttingWritesNothing(s: State, a: Action, n: uint32)
    requires Inv(s) && Enabled(s, a) && n in s.requests && s.requests[n].state == Queued
    requires n in Step(s, a).requests && Step(s, a).requests[n].state == Superseded
    ensures Written(Step(s, a).log, n) <==> Written(s.log, n)
  {
    hide Inv, Written, MapToUart, ValidCommand, RetryBatch;
    StepLogs(s, a);
    WrittenSnoc(s.log, Step(s, a).log, n);
  }

  lemma RunPairs(s: State)
    requires Inv(s)
    ensures PairsOk(s.log)
  {
  }

  lemma AckIsEarned(log: seq<Event>, n: uint32, status: AckStatus, t: int)
    requires PairsOk(log) && HonestDevice(log) && Heard(n, status, true, t) in log
    ensures Earned(log, n, status)
  {
    var k :| 0 <= k < |log| && log[k] == Heard(n, status, true, t);
    var j :| 0 <= j < k && log[j].Attempted? && log[j].seqNo == n;
    assert PairOk(log[j], log[k]);
  }

  /** The number registered last, 0 if there is none. */
  function LastRegistered(log: seq<Event>): uint32 {
    if log == [] then 0
    else if log[|log| - 1].Registered? then log[|log| - 1].seqNo
    else LastRegistered(log[..|log| - 1])
  }

  lemma LastSnoc(log: seq<Event>, e: Event)
    ensures LastRegistered(log + [e]) == if e.Registered? then e.seqNo else LastRegistered(log)
  {
    assert (log + [e])[..|log|] == log;
  }

  lemma StepLatest(s: State, a: Action)
    requires Enabled(s, a) && s.latest == LastRegistered(s.log)
    ensures Step(s, a).latest == LastRegistered(Step(s, a).log)
  {
    hide LastRegistered, MapToUart, ValidCommand, PollAll, CancelAll, Update, RetryBatch, Accepts, Transmittable;
    match a
    case Submit(cmd) =>
      SubmitRegisters(s, cmd);
      LastSnoc(s.log, Registered(s.nextSeq, cmd));
    case Transmit(ok, now) =>
      LastSnoc(s.log, Attempted(s.tx.value.seqNo, s.tx.value.frame, ok, now));
    case ReceiveAck(ack, now) =>
      LastSnoc(s.log, Step(s, a).log[|s.log|]);
    case _ =>
  }

  /** The status service answers for the command registered last, always finds it, reports success
      exactly when an OK was accepted for it, and names the state it is in. */
  lemma StatusIsTruthful(states: seq<State>, actions: seq<Action>, i: nat)
    requires Run(states, actions) && i < |states|
    ensures var s, n := states[i], LastRegistered(states[i].log);
      && (n == 0 ==> StatusReply(s) == Reply(false, "No command submitted"))
      && (n != 0 ==>
            && n in s.requests
            && (StatusReply(s).success <==> exists t :: Heard(n, Ok, true, t) in s.log)
            && var text := match s.requests[n].state
                 case Queued => "QUEUED" case WaitingAck => "WAITING_ACK" case Executing => "EXECUTING"
                 case RetryQueued => "RETRY_QUEUED" case Succeeded => "SUCCEEDED" case Preempted => "PREEMPTED"
                 case Busy => "BUSY" case Error => "ERROR" case Superseded => "SUPERSEDED"
                 case ResultUnknown => "RESULT_UNKNOWN";
               StatusReply(s).message == "SEQ:" + ToString(n) + " STATUS:" + text)
  {
    hide Run, Inv, StopGoesFirst, LastRegistered, ToString;
    RunLatest(states, actions, i);
    RunInv(states, actions, i);
    var s := states[i];
    if s.latest != 0 {
      LastIsInTable(s);
      VerdictExact(states, actions, i, s.latest, Ok);
    }
  }

  lemma {:induction false} RunLatest(states: seq<State>, actions: seq<Action>, i: nat)
    requires Run(states, actions) && i < |states|
    ensures states[i].latest == LastRegistered(states[i].log)
  {
    hide Step, Enabled, LastRegistered;
    if i == 0 {
      NoneRegistered();
    } else {
      RunLatest(states, actions, i - 1);
      assert states[i - 1 + 1] == Step(states[i - 1], actions[i - 1]);
      StepLatest(states[i - 1], actions[i - 1]);
    }
  }

  lemma NoneRegistered()
    ensures LastRegistered([]) == 0
  {
  }

  lemma LastIsInTable(s: State)
    requires Inv(s) && LastRegistered(s.log) != 0
    ensures LastRegistered(s.log) in s.requests
  {
    hide TableOk, HandsOk, NotStranded, StatesOk, PairsOk, Overtaken, StopSilences, StopsAhead, GapOk;
    LastIsLogged(s.log);
  }

  lemma {:induction false} LastIsLogged(log: seq<Event>)
    requires LastRegistered(log) != 0
    ensures exists i :: 0 <= i < |log| && log[i].Registered? && log[i].seqNo == LastRegistered(log)
  {
    if !log[|log| - 1].Registered? {
      LastIsLogged(log[..|log| - 1]);
      var i :| 0 <= i < |log| - 1 && log[..|log| - 1][i].Registered? && log[..|log| - 1][i].seqNo == LastRegistered(log);
      assert log[i] == log[..|log| - 1][i];
    }
  }

  /** Honesty is needed: a superseded request that was never written succeeds on a stray OK. */
  lemma StrayOkIsBelieved()
    returns (states: seq<State>, actions: seq<Action>)
    ensures Run(states, actions) && 1 in states[|actions|].requests
    ensures states[|actions|].requests[1].state == Succeeded && Attempts(states[|actions|].log, 1) == 0
  {
    hide MapToUart, Attempts, PollAll, RetryBatch;
    actions := [Submit("GRAB"), Enqueue, Submit("STOP"), ReceiveAck(Ack(1, Ok), 0)];
    var s1 := Step(Init(0), actions[0]);
    var s2 := Step(s1, actions[1]);
    var s3 := Step(s2, actions[2]);
    var s4 := Step(s3, actions[3]);
    assert s1.nextSeq == 2 && s1.requests == map[1 := NewRequest(1, MapToUart("GRAB", 1), false)];
    assert s3.requests[1].state == Superseded;
    states := [Init(0), s1, s2, s3, s4];
    assert s4.log == [] + [Registered(1, "GRAB")] + [Registered(2, "STOP")] + [Heard(1, Ok, true, 0)];
    NoAttempts();
  }

  lemma NoAttempts()
    ensures Attempts([] + [Registered(1, "GRAB")] + [Registered(2, "STOP")] + [Heard(1, Ok, true, 0)], 1) == 0
  {
    AttemptsSnoc([], Registered(1, "GRAB"), 1);
    AttemptsSnoc([] + [Registered(1, "GRAB")], Registered(2, "STOP"), 1);
    AttemptsSnoc([] + [Registered(1, "GRAB")] + [Registered(2, "STOP")], Heard(1, Ok, true, 0), 1);
  }

  /** The state a status stands for while the device is expected to answer. */
  function Announced(status: AckStatus): RequestState {
    match status
    case InProgress => Executing
    case Ok => Succeeded
    case Preempted => RequestState.Preempted
    case Busy => RequestState.Busy
    case Error => RequestState.Error
  }

  lemma AnswersByState(s: State, n: uint32, status: AckStatus, now: int)
    requires n in s.requests && s.requests[n].seqNo == n
    ensures var r, a := s.requests[n], ReceiveAck(Ack(n, status), now);
      var takes := r.state in {WaitingAck, Executing, RetryQueued}
                || (r.state == Superseded && status != InProgress && status != AckStatus.Busy);
      && Logged(s, a) == [Heard(n, status, takes, now)]
      && (takes ==> Becomes(s, a, r).state == Announced(status))
      && (!takes ==> Becomes(s, a, r) == r)
  {
  }

  /** Every acknowledgement of a request that was completely written, has not ended and is not
      superseded takes effect at once and is logged as accepted; IN_PROGRESS does so every time. */
  lemma AckTakesEffect(states: seq<State>, actions: seq<Action>, i: nat, n: uint32, status: AckStatus, now: int)
    requires Run(states, actions) && i < |actions| && n in states[i].requests && Written(states[i].log, n)
    requires states[i].requests[n].state !in {Succeeded, RequestState.Preempted, RequestState.Busy, RequestState.Error,
                                              ResultUnknown, Superseded}
    requires actions[i] == ReceiveAck(Ack(n, status), now)
    ensures n in states[i + 1].requests && states[i + 1].requests[n].state == Announced(status)
    ensures states[i + 1].log == states[i].log + [Heard(n, status, true, now)]
  {
    RunStep(states, actions, i);
    hide Run, Inv, Written, Step, Enabled, Becomes, Logged;
    WaitingIsWritten(states[i], n);
    EveryChangeHasItsCause(states, actions, i, n);
    EveryEventHasItsCause(states, actions, i);
    AnswersByState(states[i], n, status, now);
  }

  /** A superseded request hears OK, PREEMPTED and ERROR and ignores IN_PROGRESS and BUSY. */
  lemma SupersededAnswers(states: seq<State>, actions: seq<Action>, i: nat, n: uint32, status: AckStatus, now: int)
    requires Run(states, actions) && i < |actions| && n in states[i].requests && states[i].requests[n].state == Superseded
    requires actions[i] == ReceiveAck(Ack(n, status), now)
    ensures var ignored := status == InProgress || status == AckStatus.Busy;
      && n in states[i + 1].requests
      && (ignored ==> states[i + 1].requests[n] == states[i].requests[n])
      && (!ignored ==> states[i + 1].requests[n].state == Announced(status))
      && states[i + 1].log == states[i].log + [Heard(n, status, !ignored, now)]
  {
    RunStep(states, actions, i);
    hide Run, Becomes, Logged;
    EveryChangeHasItsCause(states, actions, i, n);
    EveryEventHasItsCause(states, actions, i);
    AnswersByState(states[i], n, status, now);
  }

  /** What was never completely written and is not superseded ignores every acknowledgement, and so
      does what has ended. */
  lemma AckIsIgnored(states: seq<State>, actions: seq<Action>, i: nat, n: uint32, status: AckStatus, now: int)
    requires Run(states, actions) && i < |actions| && n in states[i].requests
    requires states[i].requests[n].state in {Succeeded, RequestState.Preempted, RequestState.Busy, RequestState.Error, ResultUnknown}
          || (!Written(states[i].log, n) && states[i].requests[n].state != Superseded)
    requires actions[i] == ReceiveAck(Ack(n, status), now)
    ensures n in states[i + 1].requests && states[i + 1].requests[n] == states[i].requests[n]
    ensures states[i + 1].log == states[i].log + [Heard(n, status, false, now)]
  {
    RunStep(states, actions, i);
    hide Run, Inv, Written, Step, Enabled, Becomes, Logged;
    WaitingIsWritten(states[i], n);
    EveryChangeHasItsCause(states, actions, i, n);
    EveryEventHasItsCause(states, actions, i);
    AnswersByState(states[i], n, status, now);
  }

  /** An accepted IN_PROGRESS, the first or a later one, keeps every poll of the next 15 s away from
      the request, whatever happens in between. */
  lemma ProgressBuysTime(states: seq<State>, actions: seq<Action>, i: nat, n: uint32, time: int, now: int, batch: seq<RetryFrame>)
    requires Run(states, actions) && i < |actions| && Heard(n, InProgress, true, time) in states[i].log
    requires actions[i] == PollRetries(now, batch) && now < time + 15000
    ensures n in states[i].requests && n in states[i + 1].requests
    ensures states[i + 1].requests[n] == states[i].requests[n] && !Among(batch, n)
  {
    RunStep(states, actions, i);
    HeardIsKnown(states[i], n, time);
    EveryChangeHasItsCause(states, actions, i, n);
    hide Run, Inv, Step;
    assert forall k :: 0 <= k < |batch| ==> Retries(states[i].requests[batch[k].seqNo], now);
  }

  lemma HeardIsKnown(s: State, n: uint32, time: int)
    requires Inv(s) && Heard(n, InProgress, true, time) in s.log
    ensures n in s.requests
    ensures s.requests[n].state in {WaitingAck, Executing} ==> time + 15000 <= s.requests[n].deadline
  {
    hide TableOk, HandsOk, NotStranded, StatesOk, PairsOk, Overtaken, StopSilences, StopsAhead, GapOk;
    assert EventOk(s.requests, s.clock, Heard(n, InProgress, true, time));
  }

  /** Nothing that matters is dropped: once a write succeeded and until the request ends, OK,
      PREEMPTED and ERROR take effect at once. */
  lemma CompletionIsNeverIgnored(states: seq<State>, actions: seq<Action>, i: nat, n: uint32, status: AckStatus, t: int, frame: string, now: int)
    requires Run(states, actions) && i < |states| && n in states[i].requests
    requires Attempted(n, frame, true, t) in states[i].log && !Terminal(states[i].requests[n])
    requires status == Ok || status == AckStatus.Preempted || status == AckStatus.Error
    requires states[i].clock <= now
    ensures Step(states[i], ReceiveAck(Ack(n, status), now)).requests[n].state == Verdict(status)
  {
    hide Run, TableOk, HandsOk, NotStranded, StatesOk, PairsOk, Overtaken, StopsAhead;
    RunInv(states, actions, i);
    assert EventOk(states[i].requests, states[i].clock, Attempted(n, frame, true, t));
  }

  /** RESULT_UNKNOWN means what it says: exactly two retries were handed out, or a write failed. */
  lemma UnknownIsJustified(states: seq<State>, actions: seq<Action>, i: nat, n: uint32)
    requires Run(states, actions) && i < |states| && n in states[i].requests && !states[i].stopping
    requires states[i].requests[n].state == ResultUnknown
    ensures Grants(actions[..i], n) == 2
         || exists t, frame :: Attempted(n, frame, false, t) in states[i].log
  {
    hide Run, HandsOk, NotStranded, EventsOk, PairsOk, Overtaken, StopsAhead, Attempts, IsRegistered;
    RunInv(states, actions, i);
    assert StateOk(states[i], n);
    RetriesAreCounted(states, actions, i, n);
  }

  // ---- Termination ----

  /** How often request `n` changes state along a run. */
  function Changes(states: seq<State>, n: uint32): nat {
    if |states| < 2 then 0
    else
      var before, after := states[|states| - 2], states[|states| - 1];
      Changes(states[..|states| - 1], n) +
      if n in before.requests && n in after.requests && before.requests[n].state != after.requests[n].state then 1 else 0
  }

  lemma {:induction false} ChangesAreBounded(states: seq<State>, actions: seq<Action>, i: nat, n: uint32)
    requires Run(states, actions) && i < |states|
    ensures Changes(states[..i + 1], n) + (if n in states[i].requests then Rank(states[i].requests[n]) else 10) <= 10
  {
    hide Step, Enabled, Inv, Rank, StopGoesFirst;
    if i > 0 {
      ChangesAreBounded(states, actions, i - 1, n);
      RunInv(states, actions, i - 1);
      assert states[..i + 1][..i] == states[..i];
      ChangesStep(states[i - 1], actions[i - 1], n);
      assert states[i - 1 + 1] == Step(states[i - 1], actions[i - 1]);
    }
  }

  lemma ChangesStep(s: State, a: Action, n: uint32)
    requires Inv(s) && Enabled(s, a)
    ensures n in s.requests ==> n in Step(s, a).requests && Progress(s.requests[n], Step(s, a).requests[n])
    ensures n in Step(s, a).requests && n !in s.requests ==> Rank(Step(s, a).requests[n]) == 10
  {
    hide Step, Enabled, MapToUart, HandsOk, NotStranded, EventsOk, StatesOk, PairsOk, Overtaken, StopSilences, StopsAhead, GapOk;
    StepAdvances(s, a);
  }

  /** Every request changes state at most ten times in any run. */
  lemma AtMostTenChanges(states: seq<State>, actions: seq<Action>, n: uint32)
    requires Run(states, actions)
    ensures Changes(states, n) <= 10
  {
    ChangesAreBounded(states, actions, |actions|, n);
    assert states[..|actions| + 1] == states;
  }

  /** A request that has ended stays as it is, and SUPERSEDED can only become a final status. */
  lemma EndsAreFinal(states: seq<State>, actions: seq<Action>, i: nat, n: uint32)
    requires Run(states, actions) && i < |actions| && n in states[i].requests
    ensures n in states[i + 1].requests
    ensures Terminal(states[i].requests[n]) ==> states[i + 1].requests[n].state == states[i].requests[n].state
    ensures states[i].requests[n].state == Superseded ==>
      states[i + 1].requests[n].state in {Superseded, RequestState.Preempted, Succeeded, RequestState.Error}
  {
    hide Step, Enabled, Inv, Rank, StopGoesFirst;
    RunInv(states, actions, i);
    ChangesStep(states[i], actions[i], n);
    assert states[i + 1] == Step(states[i], actions[i]);
  }

  // ---- Numbering ----

  function Registrations(log: seq<Event>): nat {
    if log == [] then 0
    else Registrations(log[..|log| - 1]) + if log[|log| - 1].Registered? then 1 else 0
  }

  lemma RegistrationsSnoc(log: seq<Event>, e: Event)
    ensures Registrations(log + [e]) == Registrations(log) + if e.Registered? then 1 else 0
  {
    assert (log + [e])[..|log|] == log;
  }

  /** The numbers in use are exactly 1 to the number of registrations. */
  ghost predicate Numbered(s: State) {
    var count := Registrations(s.log);
    && count <= UINT32_MAX
    && (forall k: uint32 :: k in s.requests <==> 1 <= k <= count)
    && (count < UINT32_MAX ==> s.nextSeq == count + 1)
  }

  lemma NumberedKept(s: State, a: Action)
    requires Numbered(s) && Enabled(s, a)
    ensures Numbered(Step(s, a))
    ensures |Step(s, a).log| > |s.log| && Step(s, a).log[|s.log|].Registered? ==>
      Step(s, a).log[|s.log|].seqNo == Registrations(Step(s, a).log) == Registrations(s.log) + 1
  {
    hide Registrations, MapToUart, ValidCommand, RetryBatch, Polled, Sent, SendFailed, Acked, Cancelled;
    match a
    case Submit(cmd) => RegistrationsSnoc(s.log, Registered(s.nextSeq, cmd));
    case Transmit(ok, now) => RegistrationsSnoc(s.log, Attempted(s.tx.value.seqNo, s.tx.value.frame, ok, now));
    case ReceiveAck(ack, now) => RegistrationsSnoc(s.log, Step(s, a).log[|s.log|]);
    case _ =>
  }

  lemma {:induction false} RunNumbered(states: seq<State>, actions: seq<Action>, i: nat)
    requires Run(states, actions) && i < |states|
    ensures Numbered(states[i])
  {
    hide Step, Enabled, Numbered;
    if i == 0 {
      var start :| states[0] == Init(start);
      InitNumbered(start);
    } else {
      RunNumbered(states, actions, i - 1);
      assert states[i - 1 + 1] == Step(states[i - 1], actions[i - 1]);
      NumberedKept(states[i - 1], actions[i - 1]);
    }
  }

  lemma InitNumbered(start: int)
    ensures Numbered(Init(start))
  {
  }

  /** The k-th registered command gets the number k, in every run. */
  lemma {:induction false} NumbersAreConsecutive(states: seq<State>, actions: seq<Action>, i: nat, j: nat)
    requires Run(states, actions) && i < |states| && j < |states[i].log| && states[i].log[j].Registered?
    ensures states[i].log[j].seqNo == Registrations(states[i].log[..j + 1])
    decreases i
  {
    hide Step, Enabled, Numbered, Registrations;
    if i > 0 {
      var s, a := states[i - 1], actions[i - 1];
      assert states[i - 1 + 1] == Step(s, a);
      StepLogs(s, a);
      if j < |s.log| {
        NumbersAreConsecutive(states, actions, i - 1, j);
        assert states[i].log[..j + 1] == s.log[..j + 1];
      } else {
        RunNumbered(states, actions, i - 1);
        NumberedKept(s, a);
        assert states[i].log[..j + 1] == states[i].log;
      }
    }
  }

  /** The 32-bit counter wraps around. A valid command is registered exactly while fewer than
      2^32 - 1 commands have been; after that even a STOP is refused. Registered or refused, it
      supersedes every motion request, except when it is the one that draws number 0: that STOP
      leaves the whole table as it is. */
  lemma RegisteredUntilExhausted(states: seq<State>, actions: seq<Action>, i: nat, cmd: string)
    requires Run(states, actions) && i < |states| && Enabled(states[i], Submit(cmd)) && ValidCommand(cmd)
    ensures Step(states[i], Submit(cmd)).callback.Enqueuing? <==> Registrations(states[i].log) < UINT32_MAX
    ensures cmd == "STOP" && states[i].nextSeq != 0 ==>
      forall q :: q in states[i].requests ==>
        q in Step(states[i], Submit(cmd)).requests && !Alive(Step(states[i], Submit(cmd)), q)
    ensures states[i].nextSeq == 0 ==> Step(states[i], Submit(cmd)).requests == states[i].requests
  {
    hide Registrations, MapToUart, ValidCommand;
    RunNumbered(states, actions, i);
  }
}

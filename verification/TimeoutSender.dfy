/** The sender that waits for each acknowledgement and retries on timeout, beside a device thread
    that receives, loses and answers frames whenever it is scheduled. */
module TimeoutSender {

  datatype PendingRequest = PendingRequest(sequence: nat, payload: string, attempt: nat)

  datatype AckFrame = AckFrame(sequence: nat, success: bool, message: string)

  datatype Stats = Stats(sentFrames: nat, acked: nat, timeouts: nat, retries: nat, failed: nat)

  /** What the device thread does next: take a frame, lose the one it holds, or acknowledge it. */
  datatype DeviceStep = Receive | Lose | Answer

  datatype Verdict = Skipped | Acked(attempts: nat) | Failed

  function Attempts(v: Verdict, maxRetries: nat): nat {
    match v
    case Skipped => 0
    case Acked(n) => n
    case Failed => maxRetries + 1
  }

  /** The frames of one command, attempts 1 to n. */
  function Frames(sequence: nat, payload: string, n: nat): seq<PendingRequest> {
    if n == 0 then [] else Frames(sequence, payload, n - 1) + [PendingRequest(sequence, payload, n)]
  }

  /** The frames of all commands so far, given how each one ended. */
  function Plan(commands: seq<string>, verdicts: seq<Verdict>, maxRetries: nat): seq<PendingRequest>
    requires |verdicts| <= |commands|
  {
    if verdicts == [] then []
    else
      var i := |verdicts| - 1;
      Plan(commands, verdicts[..i], maxRetries) + Frames(i + 1, commands[i], Attempts(verdicts[i], maxRetries))
  }

  function ValidCount(commands: seq<string>, valid: string -> bool): nat {
    if commands == [] then 0
    else ValidCount(commands[..|commands| - 1], valid) + if valid(commands[|commands| - 1]) then 1 else 0
  }

  /** The counters after `n` timeouts that were followed by a retry. */
  function Waited(s: Stats, n: nat): Stats {
    Stats(s.sentFrames + n, s.acked, s.timeouts + n, s.retries + n, s.failed)
  }

  /** The counters after a command that ended with `v`. */
  function After(s: Stats, v: Verdict, maxRetries: nat): Stats
    requires v.Acked? ==> v.attempts > 0
  {
    match v
    case Skipped => s
    case Acked(n) => Stats(s.sentFrames + n, s.acked + 1, s.timeouts + n - 1, s.retries + n - 1, s.failed)
    case Failed => Stats(s.sentFrames + maxRetries + 1, s.acked, s.timeouts + maxRetries + 1, s.retries + maxRetries, s.failed + 1)
  }

  function AckedCount(verdicts: seq<Verdict>): nat {
    if verdicts == [] then 0
    else AckedCount(verdicts[..|verdicts| - 1]) + if verdicts[|verdicts| - 1].Acked? then 1 else 0
  }

  function FailedCount(verdicts: seq<Verdict>): nat {
    if verdicts == [] then 0
    else FailedCount(verdicts[..|verdicts| - 1]) + if verdicts[|verdicts| - 1].Failed? then 1 else 0
  }

  lemma CountSnoc(verdicts: seq<Verdict>, v: Verdict)
    ensures AckedCount(verdicts + [v]) == AckedCount(verdicts) + if v.Acked? then 1 else 0
    ensures FailedCount(verdicts + [v]) == FailedCount(verdicts) + if v.Failed? then 1 else 0
  {
    assert (verdicts + [v])[..|verdicts|] == verdicts;
  }

  lemma NoneCounted()
    ensures AckedCount([]) == FailedCount([]) == 0
  {
  }

  /** The frames of a command are its attempts, numbered from 1. */
  lemma {:induction false} FramesAre(sequence: nat, payload: string, n: nat)
    ensures |Frames(sequence, payload, n)| == n
    ensures forall j :: 0 <= j < n ==> Frames(sequence, payload, n)[j] == PendingRequest(sequence, payload, j + 1)
  {
    if n > 0 {
      FramesAre(sequence, payload, n - 1);
    }
  }

  predicate Balanced(stats: Stats, validCommands: nat) {
    && stats.sentFrames == validCommands + stats.retries
    && stats.sentFrames == stats.acked + stats.timeouts
    && stats.timeouts == stats.retries + stats.failed
    && stats.acked + stats.failed == validCommands
  }

  ghost predicate Mentions(frames: seq<PendingRequest>, sequence: nat) {
    exists r :: r in frames && r.sequence == sequence
  }

  lemma StillMentioned(before: seq<PendingRequest>, after: seq<PendingRequest>, sequence: nat)
    requires before <= after && Mentions(before, sequence)
    ensures Mentions(after, sequence)
  {
    var r :| r in before && r.sequence == sequence;
    assert r in after;
  }

  // ---- The link to the device ----

  /** What sender and device share; `handled` is everything the device has taken so far. */
  datatype Link = Link(queue: seq<PendingRequest>, acks: map<nat, AckFrame>, inHand: seq<PendingRequest>, handled: seq<PendingRequest>)

  /** One step of `simulatedDevice`; a step that does not apply does nothing. */
  function Turn(l: Link, step: DeviceStep): Link {
    match step
    case Receive =>
      if l.inHand != [] || l.queue == [] then l
      else Link(l.queue[1..], l.acks, [l.queue[0]], l.handled + [l.queue[0]])
    case Lose => l.(inHand := [])
    case Answer =>
      if l.inHand == [] then l
      else
        var n := l.inHand[0].sequence;
        l.(acks := l.acks[n := AckFrame(n, true, "OK")], inHand := [])
  }

  function Turns(l: Link, steps: seq<DeviceStep>): Link {
    if steps == [] then l else Turn(Turns(l, steps[..|steps| - 1]), steps[|steps| - 1])
  }

  function Pushed(l: Link, request: PendingRequest): Link {
    l.(queue := l.queue + [request])
  }

  /** The sender erases the acknowledgement it waited for. */
  function Taken(l: Link, sequence: nat): Link {
    l.(acks := l.acks - {sequence})
  }

  /** The queue is first-in first-out, and every acknowledgement answers a frame that was handled. */
  ghost predicate LinkOk(l: Link, transmitted: seq<PendingRequest>) {
    && l.handled + l.queue == transmitted
    && |l.inHand| <= 1 && (l.inHand != [] ==> l.inHand[0] in l.handled)
    && forall k :: k in l.acks ==> l.acks[k] == AckFrame(k, true, "OK") && Mentions(l.handled, k)
  }

  lemma TurnKeeps(l: Link, step: DeviceStep, transmitted: seq<PendingRequest>)
    requires LinkOk(l, transmitted)
    ensures LinkOk(Turn(l, step), transmitted) && l.handled <= Turn(l, step).handled
    ensures forall k :: k in l.acks ==> k in Turn(l, step).acks && Turn(l, step).acks[k] == l.acks[k]
  {
    hide Mentions;
    var l' := Turn(l, step);
    if step == Receive && l' != l {
      var f := l.queue[0];
      assert l.handled + l.queue == (l.handled + [f]) + l.queue[1..];
      assert l'.handled[|l.handled|] == f;
    }
    if step == Answer && l' != l {
      IsMentioned(l.handled, l.inHand[0]);
    }
    forall k | k in l.acks ensures Mentions(l'.handled, k) { StillMentioned(l.handled, l'.handled, k); }
  }

  lemma IsMentioned(frames: seq<PendingRequest>, r: PendingRequest)
    requires r in frames
    ensures Mentions(frames, r.sequence)
  {
  }

  lemma {:induction false} TurnsKeep(l: Link, steps: seq<DeviceStep>, transmitted: seq<PendingRequest>)
    requires LinkOk(l, transmitted)
    ensures LinkOk(Turns(l, steps), transmitted) && l.handled <= Turns(l, steps).handled
    ensures forall k :: k in l.acks ==> k in Turns(l, steps).acks && Turns(l, steps).acks[k] == l.acks[k]
  {
    hide LinkOk, Turn;
    if steps != [] {
      TurnsKeep(l, steps[..|steps| - 1], transmitted);
      TurnKeeps(Turns(l, steps[..|steps| - 1]), steps[|steps| - 1], transmitted);
    }
  }

  lemma TurnsSnoc(l: Link, steps: seq<DeviceStep>, step: DeviceStep)
    ensures Turns(l, steps + [step]) == Turn(Turns(l, steps), step)
  {
    assert (steps + [step])[..|steps|] == steps;
  }

  /** Among these steps the device acknowledges a frame with this number. */
  ghost predicate Answers(l: Link, steps: seq<DeviceStep>, sequence: nat) {
    exists i :: 0 <= i < |steps| && AnswersAt(l, steps, i, sequence)
  }

  predicate AnswersAt(l: Link, steps: seq<DeviceStep>, i: nat, sequence: nat)
    requires i < |steps|
  {
    steps[i] == Answer && Turns(l, steps[..i]).inHand != [] && Turns(l, steps[..i]).inHand[0].sequence == sequence
  }

  /** An acknowledgement is in the map after these steps exactly when it was there before or the
      device answered a frame with that number. */
  lemma {:induction false} PostedIff(l: Link, steps: seq<DeviceStep>, sequence: nat)
    ensures sequence in Turns(l, steps).acks <==> sequence in l.acks || Answers(l, steps, sequence)
  {
    if steps != [] {
      var init, last := steps[..|steps| - 1], |steps| - 1;
      PostedIff(l, init, sequence);
      assert AnswersAt(l, steps, last, sequence) <==> sequence in Turn(Turns(l, init).(acks := map[]), steps[last]).acks;
      AnswersBefore(l, steps, sequence);
    }
  }

  /** How many frames left the device's hand, answered or lost. */
  function Ended(l: Link, steps: seq<DeviceStep>): nat {
    if steps == [] then 0
    else
      var init := steps[..|steps| - 1];
      Ended(l, init) + if steps[|init|] != Receive && Turns(l, init).inHand != [] then 1 else 0
  }

  /** Every frame the device takes is answered once, lost once, or still in its hand. */
  lemma {:induction false} FramesAreAccountedFor(l: Link, steps: seq<DeviceStep>)
    requires |l.inHand| <= 1
    ensures |Turns(l, steps).inHand| <= 1
    ensures |Turns(l, steps).handled| - |l.handled| + |l.inHand| == Ended(l, steps) + |Turns(l, steps).inHand|
  {
    if steps != [] {
      FramesAreAccountedFor(l, steps[..|steps| - 1]);
    }
  }

  lemma AnswersBefore(l: Link, steps: seq<DeviceStep>, sequence: nat)
    requires steps != []
    ensures Answers(l, steps, sequence) <==>
      Answers(l, steps[..|steps| - 1], sequence) || AnswersAt(l, steps, |steps| - 1, sequence)
  {
    hide Turns;
    var init := steps[..|steps| - 1];
    forall i | 0 <= i < |init|
      ensures AnswersAt(l, init, i, sequence) <==> AnswersAt(l, steps, i, sequence)
    {
      assert init[..i] == steps[..i];
    }
  }

  // ---- One command ----

  /** Where the sending of a command begins: the link, the command, the frames sent before. */
  datatype Start = Start(link: Link, sequence: nat, payload: string, sent: nat)

  function RequestOf(s: Start, attempt: nat): PendingRequest {
    PendingRequest(s.sequence, s.payload, attempt)
  }

  /** The link when `k` attempts were made and no acknowledgement was taken. */
  function Tries(s: Start, schedule: nat -> seq<DeviceStep>, k: nat): Link {
    if k == 0 then s.link else Turns(Pushed(Tries(s, schedule, k - 1), RequestOf(s, k)), schedule(s.sent + k))
  }

  /** An acknowledgement of this command is in the map at the end of wait `k`. */
  predicate PostedBy(s: Start, schedule: nat -> seq<DeviceStep>, k: nat) {
    s.sequence in Tries(s, schedule, k).acks
  }

  /** The device answers a frame of this command during wait `k`. */
  ghost predicate AnsweredDuring(s: Start, schedule: nat -> seq<DeviceStep>, k: nat)
    requires k > 0
  {
    Answers(Pushed(Tries(s, schedule, k - 1), RequestOf(s, k)), schedule(s.sent + k), s.sequence)
  }

  /** The verdict as it shows in the map: the first wait that ends with the acknowledgement posted. */
  ghost predicate Decided(s: Start, schedule: nat -> seq<DeviceStep>, maxRetries: nat, v: Verdict) {
    match v
    case Skipped => false
    case Acked(k) =>
      && 1 <= k <= maxRetries + 1 && PostedBy(s, schedule, k)
      && forall j :: 1 <= j < k ==> !PostedBy(s, schedule, j)
    case Failed => forall j :: 1 <= j <= maxRetries + 1 ==> !PostedBy(s, schedule, j)
  }

  /** The verdict by what the device does: the first wait in which it answers. */
  ghost predicate EndsAs(s: Start, schedule: nat -> seq<DeviceStep>, maxRetries: nat, v: Verdict) {
    match v
    case Skipped => false
    case Acked(k) =>
      && 1 <= k <= maxRetries + 1 && AnsweredDuring(s, schedule, k)
      && forall j :: 1 <= j < k ==> !AnsweredDuring(s, schedule, j)
    case Failed => forall j :: 1 <= j <= maxRetries + 1 ==> !AnsweredDuring(s, schedule, j)
  }

  lemma {:induction false} PostedByIff(s: Start, schedule: nat -> seq<DeviceStep>, k: nat)
    requires s.sequence !in s.link.acks
    ensures PostedBy(s, schedule, k) <==> exists j :: 1 <= j <= k && AnsweredDuring(s, schedule, j)
  {
    hide Answers, Turns;
    if k > 0 {
      PostedByIff(s, schedule, k - 1);
      PostedIff(Pushed(Tries(s, schedule, k - 1), RequestOf(s, k)), schedule(s.sent + k), s.sequence);
      assert PostedBy(s, schedule, k) <==> PostedBy(s, schedule, k - 1) || AnsweredDuring(s, schedule, k);
      if j :| 1 <= j <= k && AnsweredDuring(s, schedule, j) {
        assert j == k || 1 <= j <= k - 1;
      }
    }
  }

  /** For a number that is not in the map yet, both say the same. */
  lemma DecidedByAnswers(s: Start, schedule: nat -> seq<DeviceStep>, maxRetries: nat, v: Verdict)
    requires s.sequence !in s.link.acks
    ensures Decided(s, schedule, maxRetries, v) <==> EndsAs(s, schedule, maxRetries, v)
  {
    hide PostedBy, AnsweredDuring;
    forall k: nat
      ensures PostedBy(s, schedule, k) <==> exists j :: 1 <= j <= k && AnsweredDuring(s, schedule, j)
    {
      PostedByIff(s, schedule, k);
    }
    match v
    case Skipped =>
    case Acked(k) =>
      assert forall j: nat :: 1 <= j < k && AnsweredDuring(s, schedule, j) ==> PostedBy(s, schedule, j);
    case Failed =>
      assert forall j: nat :: 1 <= j <= maxRetries + 1 && AnsweredDuring(s, schedule, j) ==> PostedBy(s, schedule, j);
  }

  /** The device's behaviour leaves only one verdict. */
  lemma OnlyOneVerdict(s: Start, schedule: nat -> seq<DeviceStep>, maxRetries: nat, v: Verdict, w: Verdict)
    requires EndsAs(s, schedule, maxRetries, v) && EndsAs(s, schedule, maxRetries, w)
    ensures v == w
  {
    hide AnsweredDuring;
  }

  // ---- All commands ----

  function SentBy(verdicts: seq<Verdict>, maxRetries: nat): nat {
    if verdicts == [] then 0
    else SentBy(verdicts[..|verdicts| - 1], maxRetries) + Attempts(verdicts[|verdicts| - 1], maxRetries)
  }

  /** The link after the commands that ended so. */
  function LinkAfter(l: Link, commands: seq<string>, verdicts: seq<Verdict>, maxRetries: nat, schedule: nat -> seq<DeviceStep>): Link
    requires |verdicts| <= |commands|
    decreases |verdicts|, 0
  {
    if verdicts == [] then l
    else
      var i := |verdicts| - 1;
      var s := StartAt(l, commands, verdicts[..i], maxRetries, schedule);
      if verdicts[i] == Skipped then s.link else Taken(Tries(s, schedule, Attempts(verdicts[i], maxRetries)), i + 1)
  }

  /** Where the next command begins after these verdicts. */
  function StartAt(l: Link, commands: seq<string>, verdicts: seq<Verdict>, maxRetries: nat, schedule: nat -> seq<DeviceStep>): Start
    requires |verdicts| < |commands|
    decreases |verdicts|, 1
  {
    Start(LinkAfter(l, commands, verdicts, maxRetries, schedule), |verdicts| + 1, commands[|verdicts|], SentBy(verdicts, maxRetries))
  }

  lemma LinkSnoc(l: Link, commands: seq<string>, verdicts: seq<Verdict>, v: Verdict, maxRetries: nat, schedule: nat -> seq<DeviceStep>)
    requires |verdicts| < |commands|
    ensures var s := StartAt(l, commands, verdicts, maxRetries, schedule);
      LinkAfter(l, commands, verdicts + [v], maxRetries, schedule) ==
        if v == Skipped then s.link else Taken(Tries(s, schedule, Attempts(v, maxRetries)), s.sequence)
    ensures SentBy(verdicts + [v], maxRetries) == SentBy(verdicts, maxRetries) + Attempts(v, maxRetries)
  {
    hide Tries, Taken;
    assert (verdicts + [v])[..|verdicts|] == verdicts;
  }

  lemma BalancedStart()
    ensures Balanced(Stats(0, 0, 0, 0, 0), 0)
  {
  }

  lemma BalancedStep(s: Stats, validCommands: nat, v: Verdict, maxRetries: nat)
    requires Balanced(s, validCommands) && (v.Acked? ==> v.attempts > 0)
    ensures After(s, Skipped, maxRetries) == s
    ensures Balanced(After(s, v, maxRetries), validCommands + if v == Skipped then 0 else 1)
  {
  }

  class Gateway {
    var txQueue: seq<PendingRequest>
    var ackMap: map<nat, AckFrame>
    var transmissionFinished: bool
    var inHand: seq<PendingRequest>
    var stats: Stats

    ghost var transmitted: seq<PendingRequest>
    ghost var handled: seq<PendingRequest>

    ghost function View(): Link
      reads `txQueue, `ackMap, `inHand, `handled
    {
      Link(txQueue, ackMap, inHand, handled)
    }

    ghost predicate Valid()
      reads `txQueue, `ackMap, `inHand, `transmitted, `handled
    {
      LinkOk(View(), transmitted)
    }

    constructor ()
      ensures Valid() && !transmissionFinished && transmitted == [] && View() == Link([], map[], [], [])
      ensures stats == Stats(0, 0, 0, 0, 0)
    {
      txQueue, ackMap, transmissionFinished, inHand := [], map[], false, [];
      stats, transmitted, handled := Stats(0, 0, 0, 0, 0), [], [];
    }

    method DeviceTurn(step: DeviceStep)
      requires |inHand| <= 1
      modifies this`txQueue, this`ackMap, this`inHand, this`handled
      ensures View() == Turn(old(View()), step) && |inHand| <= 1
    {
      match step
      case Receive =>
        if inHand == [] && txQueue != [] {
          inHand := [txQueue[0]];
          handled := handled + [txQueue[0]];
          txQueue := txQueue[1..];
        }
      case Lose => inHand := [];
      case Answer =>
        if inHand != [] {
          var ack := AckFrame(inHand[0].sequence, true, "OK");
          ackMap := ackMap[ack.sequence := ack];
          inHand := [];
        }
    }

    method DeviceRuns(steps: seq<DeviceStep>)
      requires |inHand| <= 1
      modifies this`txQueue, this`ackMap, this`inHand, this`handled
      ensures View() == Turns(old(View()), steps)
    {
      hide Turn;
      for i := 0 to |steps|
        invariant View() == Turns(old(View()), steps[..i]) && |inHand| <= 1
      {
        TurnsSnoc(old(View()), steps[..i], steps[i]);
        assert steps[..i + 1] == steps[..i] + [steps[i]];
        DeviceTurn(steps[i]);
      }
      assert steps[..|steps|] == steps;
    }

    /** One attempt: push the frame, then wait while the device runs through `steps`. The wait is
        over successfully exactly when the map then holds an acknowledgement of this number; that
        one is consumed, all others stay. */
    method SendOnce(request: PendingRequest, steps: seq<DeviceStep>) returns (received: bool)
      requires Valid()
      modifies this`txQueue, this`ackMap, this`inHand, this`handled, this`transmitted
      ensures Valid() && old(handled) <= handled
      ensures transmitted == old(transmitted) + [request]
      ensures var waited := Turns(Pushed(old(View()), request), steps);
        (received <==> request.sequence in waited.acks) && View() == Taken(waited, request.sequence)
      ensures received ==> Mentions(handled, request.sequence)
      ensures forall k :: k in old(ackMap) && k != request.sequence ==> k in ackMap && ackMap[k] == old(ackMap)[k]
    {
      hide Turns, Mentions;
      PushKeeps(View(), transmitted, request);
      TurnsKeep(Pushed(View(), request), steps, transmitted + [request]);
      txQueue := txQueue + [request];
      transmitted := transmitted + [request];
      DeviceRuns(steps);
      received := request.sequence in ackMap;
      ghost var waited := View();
      if received {
        ackMap := ackMap - {request.sequence};
      }
      assert View() == Taken(waited, request.sequence);
    }

    /** The retry loop for one command. `schedule` says what the device does during each wait. */
    method SendCommand(sequence: nat, payload: string, maxRetries: nat, schedule: nat -> seq<DeviceStep>)
      returns (verdict: Verdict)
      requires Valid()
      modifies this
      ensures Valid() && transmissionFinished == old(transmissionFinished) && old(handled) <= handled
      ensures !verdict.Skipped? && (verdict.Acked? ==> 1 <= verdict.attempts <= maxRetries + 1)
      ensures var s := Start(old(View()), sequence, payload, old(stats.sentFrames));
        && Decided(s, schedule, maxRetries, verdict)
        && View() == Taken(Tries(s, schedule, Attempts(verdict, maxRetries)), sequence)
      ensures transmitted == old(transmitted) + Frames(sequence, payload, Attempts(verdict, maxRetries))
      ensures verdict.Acked? ==> Mentions(handled, sequence)
      ensures stats == After(old(stats), verdict, maxRetries)
      ensures stats.sentFrames - old(stats).sentFrames == |transmitted| - |old(transmitted)|
      ensures verdict.Acked? ==>
        && |transmitted| == |old(transmitted)| + verdict.attempts
        && stats.acked == old(stats).acked + 1 && stats.failed == old(stats).failed
        && stats.timeouts - old(stats).timeouts == stats.retries - old(stats).retries == verdict.attempts - 1
      ensures verdict.Failed? ==>
        && |transmitted| == |old(transmitted)| + maxRetries + 1
        && stats.acked == old(stats).acked && stats.failed == old(stats).failed + 1
        && stats.timeouts == old(stats).timeouts + maxRetries + 1 && stats.retries == old(stats).retries + maxRetries
    {
      hide Valid, Mentions, Turns, Frames, View, Taken, Pushed, Tries, PostedBy;
      var attempt := 1;
      ghost var s := Start(View(), sequence, payload, stats.sentFrames);
      NextTry(s, schedule, 0);
      ghost var before := (stats, transmitted);
      FramesNext(sequence, payload, 0, before.1);
      while attempt <= maxRetries + 1
        invariant 1 <= attempt <= maxRetries + 2 && Valid() && transmissionFinished == old(transmissionFinished)
        invariant old(handled) <= handled
        invariant View() == Tries(s, schedule, attempt - 1)
        invariant forall j :: 1 <= j < attempt ==> !PostedBy(s, schedule, j)
        invariant transmitted == before.1 + Frames(sequence, payload, attempt - 1)
        invariant stats == if attempt <= maxRetries + 1 then Waited(before.0, attempt - 1) else After(before.0, Failed, maxRetries)
        decreases maxRetries + 2 - attempt
      {
        stats := stats.(sentFrames := stats.sentFrames + 1);
        FramesNext(sequence, payload, attempt, before.1);
        NextTry(s, schedule, attempt);
        var received := SendOnce(PendingRequest(sequence, payload, attempt), schedule(stats.sentFrames));
        if received {
          stats := stats.(acked := stats.acked + 1);
          FramesAre(sequence, payload, attempt);
          return Acked(attempt);
        }
        NothingTaken(Tries(s, schedule, attempt), sequence);
        stats := stats.(timeouts := stats.timeouts + 1);
        if attempt <= maxRetries {
          stats := stats.(retries := stats.retries + 1);
        } else {
          stats := stats.(failed := stats.failed + 1);
        }
        attempt := attempt + 1;
      }
      NextTry(s, schedule, attempt - 1);
      NothingTaken(View(), sequence);
      FramesAre(sequence, payload, maxRetries + 1);
      verdict := Failed;
    }

    /** `commandSender`: for any commands, any retry limit and any behaviour of the device the
        counters balance and the frames follow the plan; a command is acknowledged at the first
        attempt in whose wait the device answers a frame of that very command, and fails exactly
        when there is none. */
    method CommandSender(commands: seq<string>, valid: string -> bool, maxRetries: nat, schedule: nat -> seq<DeviceStep>)
      returns (verdicts: seq<Verdict>)
      requires Valid() && transmitted == [] && stats == Stats(0, 0, 0, 0, 0)
      modifies this
      ensures Valid() && transmissionFinished
      ensures |verdicts| == |commands| && Balanced(stats, ValidCount(commands, valid))
      ensures stats.acked == AckedCount(verdicts) && stats.failed == FailedCount(verdicts) && stats.sentFrames == |transmitted|
      ensures transmitted == Plan(commands, verdicts, maxRetries)
      ensures View() == LinkAfter(old(View()), commands, verdicts, maxRetries, schedule)
      ensures forall i :: 0 <= i < |commands| ==>
        VerdictOk(old(View()), commands, valid, verdicts[..i], verdicts[i], maxRetries, schedule)
      ensures forall i :: 0 <= i < |commands| && verdicts[i].Acked? ==> HandledFor(i + 1, commands[i])
    {
      hide Valid, View, Mentions, Plan, ValidCount, VerdictsOk, Balanced, After, Attempts, HandledFor, Decided, EndsAs, Taken, Tries, LinkAfter, SentBy, AckedCount, FailedCount;
      verdicts := [];
      NoneCounted();
      ghost var l := View();
      PlanEmpty(commands, valid, maxRetries);
      BalancedStart();
      VerdictsEmpty(l, commands, valid, maxRetries, schedule, handled);
      for i := 0 to |commands|
        invariant Valid() && |verdicts| == i && Balanced(stats, ValidCount(commands[..i], valid))
        invariant transmitted == Plan(commands, verdicts, maxRetries)
        invariant View() == LinkAfter(l, commands, verdicts, maxRetries, schedule)
        invariant stats.sentFrames == SentBy(verdicts, maxRetries) == |transmitted|
        invariant stats.acked == AckedCount(verdicts) && stats.failed == FailedCount(verdicts)
        invariant VerdictsOk(l, commands, valid, verdicts, maxRetries, schedule, handled)
      {
        var verdict := Skipped;
        ghost var before := (handled, stats);
        ghost var s := StartAt(l, commands, verdicts, maxRetries, schedule);
        if valid(commands[i]) {
          NumberIsNew(commands, verdicts, maxRetries);
          verdict := SendCommand(i + 1, commands[i], maxRetries, schedule);
          DecidedByAnswers(s, schedule, maxRetries, verdict);
        }
        BalancedStep(before.1, ValidCount(commands[..i], valid), verdict, maxRetries);
        SentAfter(before.1, verdict, maxRetries);
        VerdictsSnoc(l, commands, valid, verdicts, verdict, maxRetries, schedule, before.0, handled);
        ValidSnoc(commands, valid, i);
        PlanSnoc(commands, verdicts, verdict, maxRetries);
        LinkSnoc(l, commands, verdicts, verdict, maxRetries, schedule);
        CountSnoc(verdicts, verdict);
        verdicts := verdicts + [verdict];
      }
      assert commands[..|commands|] == commands;
      transmissionFinished := true;
      VerdictsAll(l, commands, valid, verdicts, maxRetries, schedule, handled);
      forall i | 0 <= i < |commands| && verdicts[i].Acked?
        ensures HandledFor(i + 1, commands[i])
      {
        HandledAsPlanned(commands, verdicts, maxRetries, i);
      }
    }

    /** No acknowledgement of a number can be there before its first frame. */
    lemma NumberIsNew(commands: seq<string>, verdicts: seq<Verdict>, maxRetries: nat)
      requires Valid() && |verdicts| < |commands| && transmitted == Plan(commands, verdicts, maxRetries)
      ensures |verdicts| + 1 !in View().acks
    {
      hide Plan;
      if |verdicts| + 1 in ackMap {
        var r :| r in handled && r.sequence == |verdicts| + 1;
        assert r in transmitted;
        PlanPayload(commands, verdicts, maxRetries, r);
      }
    }

    /** The device has handled a frame of this command. */
    ghost predicate HandledFor(sequence: nat, payload: string)
      reads `handled
    {
      exists r :: r in handled && r.sequence == sequence && r.payload == payload
    }

    lemma HandledAsPlanned(commands: seq<string>, verdicts: seq<Verdict>, maxRetries: nat, i: nat)
      requires Valid() && |verdicts| == |commands| && i < |commands|
      requires transmitted == Plan(commands, verdicts, maxRetries) && Mentions(handled, i + 1)
      ensures HandledFor(i + 1, commands[i])
    {
      var r :| r in handled && r.sequence == i + 1;
      assert r in transmitted;
      PlanPayload(commands, verdicts, maxRetries, r);
    }
  }

  lemma FramesNext(sequence: nat, payload: string, n: nat, before: seq<PendingRequest>)
    ensures before + Frames(sequence, payload, 0) == before
    ensures n > 0 ==>
      before + Frames(sequence, payload, n - 1) + [PendingRequest(sequence, payload, n)] == before + Frames(sequence, payload, n)
  {
  }

  lemma PlanEmpty(commands: seq<string>, valid: string -> bool, maxRetries: nat)
    ensures Plan(commands, [], maxRetries) == [] && ValidCount(commands[..0], valid) == 0
  {
  }

  lemma ValidSnoc(commands: seq<string>, valid: string -> bool, i: nat)
    requires i < |commands|
    ensures ValidCount(commands[..i + 1], valid) == ValidCount(commands[..i], valid) + if valid(commands[i]) then 1 else 0
  {
    assert commands[..i + 1][..i] == commands[..i];
  }

  lemma PushKeeps(l: Link, transmitted: seq<PendingRequest>, request: PendingRequest)
    requires LinkOk(l, transmitted)
    ensures LinkOk(Pushed(l, request), transmitted + [request])
  {
    assert l.handled + (l.queue + [request]) == (l.handled + l.queue) + [request];
  }

  lemma NextTry(s: Start, schedule: nat -> seq<DeviceStep>, k: nat)
    ensures Tries(s, schedule, 0) == s.link
    ensures k > 0 ==> Tries(s, schedule, k) == Turns(Pushed(Tries(s, schedule, k - 1), RequestOf(s, k)), schedule(s.sent + k))
    ensures PostedBy(s, schedule, k) <==> s.sequence in Tries(s, schedule, k).acks
  {
  }

  lemma NothingTaken(l: Link, sequence: nat)
    ensures sequence !in l.acks ==> Taken(l, sequence) == l
  {
    if sequence !in l.acks {
      assert l.acks - {sequence} == l.acks;
    }
  }

  lemma SentAfter(s: Stats, v: Verdict, maxRetries: nat)
    requires v.Acked? ==> v.attempts > 0
    ensures After(s, v, maxRetries).sentFrames == s.sentFrames + Attempts(v, maxRetries)
  {
  }

  ghost predicate VerdictsOk(l: Link, commands: seq<string>, valid: string -> bool, verdicts: seq<Verdict>, maxRetries: nat,
                             schedule: nat -> seq<DeviceStep>, handled: seq<PendingRequest>)
    requires |verdicts| <= |commands|
  {
    && (forall j :: 0 <= j < |verdicts| ==> VerdictOk(l, commands, valid, verdicts[..j], verdicts[j], maxRetries, schedule))
    && forall j :: 0 <= j < |verdicts| && verdicts[j].Acked? ==> Mentions(handled, j + 1)
  }

  /** After the verdicts `before`, the next command ends as the device decides. */
  ghost predicate VerdictOk(l: Link, commands: seq<string>, valid: string -> bool, before: seq<Verdict>, v: Verdict, maxRetries: nat,
                            schedule: nat -> seq<DeviceStep>)
    requires |before| < |commands|
  {
    if valid(commands[|before|]) then EndsAs(StartAt(l, commands, before, maxRetries, schedule), schedule, maxRetries, v)
    else v == Skipped
  }

  lemma VerdictsEmpty(l: Link, commands: seq<string>, valid: string -> bool, maxRetries: nat, schedule: nat -> seq<DeviceStep>,
                      handled: seq<PendingRequest>)
    ensures VerdictsOk(l, commands, valid, [], maxRetries, schedule, handled)
    ensures LinkAfter(l, commands, [], maxRetries, schedule) == l && SentBy([], maxRetries) == 0
  {
  }

  lemma VerdictsAll(l: Link, commands: seq<string>, valid: string -> bool, verdicts: seq<Verdict>, maxRetries: nat,
                    schedule: nat -> seq<DeviceStep>, handled: seq<PendingRequest>)
    requires |verdicts| == |commands| && VerdictsOk(l, commands, valid, verdicts, maxRetries, schedule, handled)
    ensures forall i :: 0 <= i < |commands| ==> VerdictOk(l, commands, valid, verdicts[..i], verdicts[i], maxRetries, schedule)
    ensures forall i :: 0 <= i < |commands| && verdicts[i].Acked? ==> Mentions(handled, i + 1)
  {
    hide VerdictOk, Mentions;
  }

  lemma VerdictsSnoc(l: Link, commands: seq<string>, valid: string -> bool, verdicts: seq<Verdict>, v: Verdict, maxRetries: nat,
                     schedule: nat -> seq<DeviceStep>, before: seq<PendingRequest>, after: seq<PendingRequest>)
    requires |verdicts| < |commands| && before <= after
    requires VerdictsOk(l, commands, valid, verdicts, maxRetries, schedule, before)
    requires VerdictOk(l, commands, valid, verdicts, v, maxRetries, schedule)
    requires v.Acked? ==> Mentions(after, |verdicts| + 1)
    ensures VerdictsOk(l, commands, valid, verdicts + [v], maxRetries, schedule, after)
  {
    hide Mentions, VerdictOk;
    var all := verdicts + [v];
    forall j | 0 <= j < |all|
      ensures VerdictOk(l, commands, valid, all[..j], all[j], maxRetries, schedule)
    {
      assert all[..j] == verdicts[..j];
      assert verdicts[..|verdicts|] == verdicts;
    }
    forall j | 0 <= j < |verdicts| && verdicts[j].Acked?
      ensures Mentions(after, j + 1)
    {
      StillMentioned(before, after, j + 1);
    }
  }

  lemma PlanSnoc(commands: seq<string>, verdicts: seq<Verdict>, v: Verdict, maxRetries: nat)
    requires |verdicts| < |commands|
    ensures Plan(commands, verdicts + [v], maxRetries) ==
      Plan(commands, verdicts, maxRetries) + Frames(|verdicts| + 1, commands[|verdicts|], Attempts(v, maxRetries))
    ensures v == Skipped ==> Plan(commands, verdicts + [v], maxRetries) == Plan(commands, verdicts, maxRetries)
  {
    assert (verdicts + [v])[..|verdicts|] == verdicts;
  }

  /** A frame of the plan carries the payload its number stands for. */
  lemma {:induction false} PlanPayload(commands: seq<string>, verdicts: seq<Verdict>, maxRetries: nat, r: PendingRequest)
    requires |verdicts| <= |commands| && r in Plan(commands, verdicts, maxRetries)
    ensures 1 <= r.sequence <= |verdicts| && r.payload == commands[r.sequence - 1]
    decreases |verdicts|
  {
    var i := |verdicts| - 1;
    if r in Plan(commands, verdicts[..i], maxRetries) {
      PlanPayload(commands, verdicts[..i], maxRetries, r);
    } else {
      FramesPayload(i + 1, commands[i], Attempts(verdicts[i], maxRetries), r);
    }
  }

  lemma {:induction false} FramesPayload(sequence: nat, payload: string, n: nat, r: PendingRequest)
    requires r in Frames(sequence, payload, n)
    ensures r.sequence == sequence && r.payload == payload
  {
    if r in Frames(sequence, payload, n - 1) {
      FramesPayload(sequence, payload, n - 1, r);
    }
  }
}

/** The request table of the bridge: ten states, deadlines and bounded retries. */
module RetryPolicies {
  import opened Decimal
  import opened AckParser

  datatype RequestState =
    | Queued
    | WaitingAck
    | Executing
    | RetryQueued
    | Succeeded
    | Preempted
    | Busy
    | Error
    | Superseded
    | ResultUnknown

  datatype RetryFrame = RetryFrame(seqNo: uint32, frame: string)

  datatype Request = Request(
    seqNo: uint32,
    frame: string,
    isStop: bool,
    state: RequestState,
    retriesUsed: nat,
    deadline: int)

  type Requests = map<uint32, Request>

  const MAX_RETRIES := 2

  // Milliseconds of the steady clock.
  const ACK_TIMEOUT := 1500
  const EXEC_TIMEOUT := 15000

  /** States in which the request still wants to be written to the UART. */
  predicate Transmittable(r: Request) {
    r.state == Queued || r.state == RetryQueued
  }

  /** States that a STOP takes a motion request out of. */
  predicate Active(r: Request) {
    r.state == Queued || r.state == WaitingAck || r.state == Executing || r.state == RetryQueued
  }

  predicate Terminal(r: Request) {
    r.state.Succeeded? || r.state.Preempted? || r.state.Busy? || r.state.Error? || r.state.ResultUnknown?
  }

  // ---- One request ----

  function Sent(r: Request, now: int): Request {
    if Transmittable(r) then r.(state := WaitingAck, deadline := now + ACK_TIMEOUT) else r
  }

  function SendFailed(r: Request): Request {
    if Transmittable(r) then r.(state := ResultUnknown) else r
  }

  /** The final state that a final status stands for. */
  function Verdict(status: AckStatus): RequestState
    requires status != InProgress
  {
    match status
    case Ok => Succeeded
    case Preempted => RequestState.Preempted
    case Busy => RequestState.Busy
    case Error => RequestState.Error
  }

  predicate Accepts(r: Request, status: AckStatus) {
    if r.state == Superseded then status == AckStatus.Preempted || status == Ok || status == AckStatus.Error
    else r.state == WaitingAck || r.state == Executing || r.state == RetryQueued
  }

  function Acked(r: Request, status: AckStatus, now: int): Request {
    if !Accepts(r, status) then r
    else if status == InProgress then r.(state := Executing, deadline := now + EXEC_TIMEOUT)
    else r.(state := Verdict(status))
  }

  predicate Due(r: Request, now: int) {
    (r.state == WaitingAck || r.state == Executing) && now >= r.deadline
  }

  predicate Retries(r: Request, now: int) {
    Due(r, now) && r.retriesUsed < MAX_RETRIES
  }

  function Polled(r: Request, now: int): Request {
    if !Due(r, now) then r
    else if r.retriesUsed < MAX_RETRIES then r.(retriesUsed := r.retriesUsed + 1, state := RetryQueued)
    else r.(state := ResultUnknown)
  }

  function Cancelled(r: Request): Request {
    if !r.isStop && Active(r) then r.(state := Superseded) else r
  }

  // ---- The table ----

  function NewRequest(seqNo: uint32, frame: string, isStop: bool): Request {
    Request(seqNo, frame, isStop, Queued, 0, 0)
  }

  function Update(m: Requests, seqNo: uint32, f: Request -> Request): Requests {
    if seqNo in m then m[seqNo := f(m[seqNo])] else m
  }

  function PollAll(m: Requests, now: int): Requests {
    map k | k in m :: Polled(m[k], now)
  }

  function CancelAll(m: Requests): Requests {
    map k | k in m :: Cancelled(m[k])
  }

  /** The batch that `poll` returns: one frame for each request that gets a retry, by ascending number. */
  ghost predicate RetryBatch(m: Requests, now: int, frames: seq<RetryFrame>) {
    && (forall i, j :: 0 <= i < j < |frames| ==> frames[i].seqNo < frames[j].seqNo)
    && (forall i :: 0 <= i < |frames| ==>
          && frames[i].seqNo in m && Retries(m[frames[i].seqNo], now)
          && frames[i].frame == m[frames[i].seqNo].frame)
    && (forall k :: k in m && Retries(m[k], now) ==> RetryFrame(k, m[k].frame) in frames)
  }

  /** The conditions fix the batch completely. */
  lemma {:induction false} RetryBatchUnique(m: Requests, now: int, a: seq<RetryFrame>, b: seq<RetryFrame>)
    requires RetryBatch(m, now, a) && RetryBatch(m, now, b)
    ensures a == b
  {
    SortedSameElements(a, b);
  }

  lemma {:induction false} SortedSameElements(a: seq<RetryFrame>, b: seq<RetryFrame>)
    requires forall i, j :: 0 <= i < j < |a| ==> a[i].seqNo < a[j].seqNo
    requires forall i, j :: 0 <= i < j < |b| ==> b[i].seqNo < b[j].seqNo
    requires forall x :: x in a <==> x in b
    ensures a == b
  {
    var x := if a != [] then a[0] else if b != [] then b[0] else RetryFrame(0, "");
    assert x in a <==> x in b;
    if a != [] {
      assert a[0] in b && b[0] in a;
      assert a[0] == b[0];
      forall x
        ensures x in a[1..] <==> x in b[1..]
      {
        assert x in a <==> x == a[0] || x in a[1..];
        assert x in b <==> x == b[0] || x in b[1..];
      }
      SortedSameElements(a[1..], b[1..]);
    }
  }

  // ---- Termination rank ----

  /** An upper bound on the number of state changes still ahead of a request. */
  function Rank(r: Request): nat {
    var left := if r.retriesUsed <= MAX_RETRIES then MAX_RETRIES - r.retriesUsed else 0;
    match r.state
    case Queued => 4 + 3 * left
    case RetryQueued => 4 + 3 * left
    case WaitingAck => 3 + 3 * left
    case Executing => 2 + 3 * left
    case Superseded => 1
    case _ => 0
  }

  /** The state graph: every pair that some operation can connect. */
  predicate Edge(a: RequestState, b: RequestState) {
    match a
    case Queued => b == WaitingAck || b == ResultUnknown || b == Superseded
    case RetryQueued =>
      b == WaitingAck || b == ResultUnknown || b == Superseded || b == Executing ||
      b == Succeeded || b == RequestState.Preempted || b == RequestState.Busy || b == RequestState.Error
    case WaitingAck =>
      b == Executing || b == RetryQueued || b == ResultUnknown || b == Superseded ||
      b == Succeeded || b == RequestState.Preempted || b == RequestState.Busy || b == RequestState.Error
    case Executing =>
      b == RetryQueued || b == ResultUnknown || b == Superseded ||
      b == Succeeded || b == RequestState.Preempted || b == RequestState.Busy || b == RequestState.Error
    case Superseded => b == RequestState.Preempted || b == Succeeded || b == RequestState.Error
    case _ => false
  }

  /** What one operation may do to one request: keep its identity, keep the retry budget, and
      either leave the state alone or move along the graph and pay for it with rank. */
  predicate Progress(a: Request, b: Request) {
    && b.seqNo == a.seqNo && b.frame == a.frame && b.isStop == a.isStop
    && a.retriesUsed <= b.retriesUsed <= MAX_RETRIES
    && (b.state == a.state || Edge(a.state, b.state))
    && (b.state == a.state ==> Rank(b) == Rank(a))
    && (b.state != a.state ==> Rank(b) < Rank(a))
  }

  lemma EveryOperationProgresses(r: Request, now: int, status: AckStatus)
    requires r.retriesUsed <= MAX_RETRIES
    ensures Progress(r, Sent(r, now)) && Progress(r, SendFailed(r)) && Progress(r, Acked(r, status, now))
    ensures Progress(r, Polled(r, now)) && Progress(r, Cancelled(r))
  {
  }

  /** Every edge of the graph is taken by some operation on some request. */
  lemma EveryEdgeIsTaken(a: RequestState, b: RequestState)
    ensures Edge(a, b) ==> exists r: Request, now: int, status: AckStatus ::
        r.state == a && r.retriesUsed <= MAX_RETRIES
        && b in {Sent(r, now).state, SendFailed(r).state, Acked(r, status, now).state, Polled(r, now).state, Cancelled(r).state}
  {
    if Edge(a, b) {
      var used := if b == ResultUnknown then MAX_RETRIES else 0;
      var r := Request(1, "x", false, a, used, 0);
      var status := match b
        case Executing => InProgress
        case Preempted => AckStatus.Preempted
        case Busy => AckStatus.Busy
        case Error => AckStatus.Error
        case _ => Ok;
      assert b in {Sent(r, 0).state, SendFailed(r).state, Acked(r, status, 0).state, Polled(r, 0).state, Cancelled(r).state};
    }
  }

  /** `RetryPolicy`: every method reads and writes the one table. */
  class RetryPolicy {
    var requests: Requests

    /** Each entry is filed under its own number. */
    ghost predicate Valid()
      reads this
    {
      forall k :: k in requests ==> requests[k].seqNo == k
    }

    constructor ()
      ensures Valid() && requests == map[]
    {
      requests := map[];
    }

    method Start(seqNo: uint32, frame: string, isStop: bool) returns (ok: bool)
      requires Valid()
      modifies this
      ensures Valid()
      ensures ok == (seqNo != 0 && frame != "" && seqNo !in old(requests))
      ensures requests == if ok then old(requests)[seqNo := NewRequest(seqNo, frame, isStop)] else old(requests)
    {
      if seqNo == 0 || frame == "" {
        return false;
      }
      var request := Request(seqNo, frame, isStop, Queued, 0, 0);
      if seqNo in requests {
        return false;
      }
      requests := requests[seqNo := request];
      return true;
    }

    method MarkSent(seqNo: uint32, now: int) returns (ok: bool)
      requires Valid()
      modifies this
      ensures Valid()
      ensures ok == (seqNo in old(requests) && Transmittable(old(requests)[seqNo]))
      ensures requests == Update(old(requests), seqNo, r => Sent(r, now))
    {
      if seqNo !in requests {
        return false;
      }
      var request := requests[seqNo];
      if request.state != Queued && request.state != RetryQueued {
        return false;
      }
      requests := requests[seqNo := request.(state := WaitingAck, deadline := now + ACK_TIMEOUT)];
      return true;
    }

    method MarkSendFailed(seqNo: uint32) returns (ok: bool)
      requires Valid()
      modifies this
      ensures Valid()
      ensures ok == (seqNo in old(requests) && Transmittable(old(requests)[seqNo]))
      ensures requests == Update(old(requests), seqNo, SendFailed)
    {
      if seqNo !in requests {
        return false;
      }
      var request := requests[seqNo];
      if request.state != Queued && request.state != RetryQueued {
        return false;
      }
      requests := requests[seqNo := request.(state := ResultUnknown)];
      return true;
    }

    method OnAck(seqNo: uint32, status: AckStatus, now: int) returns (accepted: bool)
      requires Valid()
      modifies this
      ensures Valid()
      ensures accepted == (seqNo in old(requests) && Accepts(old(requests)[seqNo], status))
      ensures requests == Update(old(requests), seqNo, r => Acked(r, status, now))
    {
      if seqNo !in requests {
        return false;
      }
      var request := requests[seqNo];
      if request.state == Superseded {
        if status == AckStatus.Preempted {
          requests := requests[seqNo := request.(state := RequestState.Preempted)];
          return true;
        }
        if status == Ok {
          requests := requests[seqNo := request.(state := Succeeded)];
          return true;
        }
        if status == AckStatus.Error {
          requests := requests[seqNo := request.(state := RequestState.Error)];
          return true;
        }
        return false;
      }
      if request.state != WaitingAck && request.state != Executing && request.state != RetryQueued {
        return false;
      }
      match status {
        case InProgress => request := request.(state := Executing, deadline := now + EXEC_TIMEOUT);
        case Ok => request := request.(state := Succeeded);
        case Preempted => request := request.(state := RequestState.Preempted);
        case Busy => request := request.(state := RequestState.Busy);
        case Error => request := request.(state := RequestState.Error);
      }
      requests := requests[seqNo := request];
      return true;
    }

    /** One turn of the loop in `poll`. */
    method PollOne(k: uint32, now: int) returns (output: seq<RetryFrame>)
      requires Valid() && k in requests
      modifies this
      ensures Valid()
      ensures requests == old(requests)[k := Polled(old(requests)[k], now)]
      ensures output == if Retries(old(requests)[k], now) then [RetryFrame(k, old(requests)[k].frame)] else []
    {
      output := [];
      var request := requests[k];
      if request.state != WaitingAck && request.state != Executing {
        return;
      }
      if now < request.deadline {
        return;
      }
      if request.retriesUsed >= MAX_RETRIES {
        requests := requests[k := request.(state := ResultUnknown)];
        return;
      }
      requests := requests[k := request.(retriesUsed := request.retriesUsed + 1, state := RetryQueued)];
      output := [RetryFrame(request.seqNo, request.frame)];
    }

    /** Walks the table by ascending number, as iteration over an ordered map does. */
    method Poll(now: int) returns (output: seq<RetryFrame>)
      requires Valid()
      modifies this
      ensures Valid()
      ensures requests == PollAll(old(requests), now)
      ensures RetryBatch(old(requests), now, output)
    {
      hide Polled, Retries, RetryBatch, Due;
      output := [];
      ghost var before := requests;
      var rest := requests.Keys;
      EmptyBatch(before, now);
      while rest != {}
        invariant Valid() && rest <= before.Keys == requests.Keys
        invariant forall k :: k in before ==> requests[k] == if k in rest then before[k] else Polled(before[k], now)
        invariant PartialBatch(before, before.Keys - rest, now, output)
        invariant forall j, k :: j in before.Keys - rest && k in rest ==> j < k
        decreases rest
      {
        var k := Least(rest);
        ghost var done := before.Keys - rest;
        rest := rest - {k};
        assert before.Keys - rest == done + {k};
        var more := PollOne(k, now);
        BatchGrows(before, done, k, now, output);
        output := output + more;
      }
      assert before.Keys - {} == before.Keys;
      WholeBatch(before, now, output);
    }

    method CancelNonStop()
      requires Valid()
      modifies this
      ensures Valid()
      ensures requests == CancelAll(old(requests))
    {
      ghost var before := requests;
      var rest := requests.Keys;
      while rest != {}
        invariant Valid() && rest <= before.Keys == requests.Keys
        invariant forall k :: k in before ==> requests[k] == if k in rest then before[k] else Cancelled(before[k])
        decreases rest
      {
        var k := Least(rest);
        rest := rest - {k};
        var request := requests[k];
        if !request.isStop {
          if request.state == Queued || request.state == WaitingAck || request.state == Executing || request.state == RetryQueued {
            requests := requests[k := request.(state := Superseded)];
          }
        }
      }
    }

    predicate ShouldTransmit(seqNo: uint32)
      reads this
    {
      seqNo in requests && (requests[seqNo].state == Queued || requests[seqNo].state == RetryQueued)
    }
  }

  /** A batch as far as the keys in `done` are concerned. */
  ghost predicate PartialBatch(m: Requests, done: set<uint32>, now: int, frames: seq<RetryFrame>) {
    && (forall i, j :: 0 <= i < j < |frames| ==> frames[i].seqNo < frames[j].seqNo)
    && (forall i :: 0 <= i < |frames| ==>
          && frames[i].seqNo in m && frames[i].seqNo in done && Retries(m[frames[i].seqNo], now)
          && frames[i].frame == m[frames[i].seqNo].frame)
    && (forall k :: k in done && k in m && Retries(m[k], now) ==> RetryFrame(k, m[k].frame) in frames)
  }

  lemma EmptyBatch(m: Requests, now: int)
    ensures PartialBatch(m, {}, now, [])
  {
  }

  lemma WholeBatch(m: Requests, now: int, frames: seq<RetryFrame>)
    requires PartialBatch(m, m.Keys, now, frames)
    ensures RetryBatch(m, now, frames)
  {
  }

  lemma BatchGrows(m: Requests, done: set<uint32>, k: uint32, now: int, frames: seq<RetryFrame>)
    requires PartialBatch(m, done, now, frames) && k in m
    requires forall j :: j in done ==> j < k
    ensures PartialBatch(m, done + {k}, now, frames + if Retries(m[k], now) then [RetryFrame(k, m[k].frame)] else [])
  {
    hide Retries;
    if Retries(m[k], now) {
      var longer := frames + [RetryFrame(k, m[k].frame)];
      assert longer[|frames|] == RetryFrame(k, m[k].frame);
      forall j | j in done && j in m && Retries(m[j], now)
        ensures RetryFrame(j, m[j].frame) in longer
      {
        assert RetryFrame(j, m[j].frame) in frames;
      }
    }
  }

  /** The first key of an ordered map. */
  method Least(keys: set<uint32>) returns (k: uint32)
    requires keys != {}
    ensures k in keys && forall j :: j in keys ==> k <= j
  {
    k :| k in keys;
    var rest := keys - {k};
    while rest != {}
      invariant rest <= keys && k in keys
      invariant forall j :: j in keys ==> j in rest || k <= j
      decreases rest
    {
      var j: uint32 :| j in rest;
      rest := rest - {j};
      if j < k {
        k := j;
      }
    }
  }
}

/** The node itself: each method is one lock-protected region, and each is proved to be the
    corresponding action of the transition system. What a thread carries from one region to the
    next, the clock and the log are ghost state. */
module HandBridgeNodes {
  import opened Basics
  import opened Decimal
  import opened AckParser
  import opened UartCommand
  import opened RetryPolicies
  import opened HandBridge

  class HandBridgeNode {
    const retryPolicy: RetryPolicy
    var commandQueue: seq<RetryFrame>
    var stopWorker: bool
    var nextSeq: uint32
    var latestRequestedSeq: uint32

    ghost var callback: Callback
    ghost var tx: Option<RetryFrame>
    ghost var retry: seq<RetryFrame>
    ghost var clock: int
    ghost var log: seq<Event>

    ghost predicate Valid()
      reads this, retryPolicy
    {
      retryPolicy.Valid()
    }

    ghost function Model(): State
      reads this, retryPolicy
    {
      State(retryPolicy.requests, commandQueue, stopWorker, nextSeq, latestRequestedSeq, callback, tx, retry, clock, log)
    }

    constructor (ghost start: int)
      ensures Valid() && fresh(retryPolicy) && Model() == Init(start)
    {
      retryPolicy := new RetryPolicy();
      commandQueue, stopWorker, nextSeq, latestRequestedSeq := [], false, 1, 0;
      callback, tx, retry, clock, log := Idle, None, [], start, [];
    }

    /** `command_callback` up to the end of its first locked region. */
    method Submit(cmd: string) returns (registered: bool, frame: RetryFrame, isStop: bool)
      requires Valid() && Enabled(Model(), Action.Submit(cmd))
      modifies this, retryPolicy
      ensures Valid() && Model() == Step(old(Model()), Action.Submit(cmd))
      ensures registered <==> callback.Enqueuing?
      ensures registered ==> callback == Enqueuing(frame, isStop)
    {
      hide Cancelled, ToString;
      registered, frame, isStop := false, RetryFrame(0, ""), false;
      if !ValidCommand(cmd) {
        return;
      }
      var n := nextSeq;
      nextSeq := if n == UINT32_MAX then 0 else n + 1;
      if n == 0 {
        return;
      }
      isStop := cmd == "STOP";
      FrameCarriesCommand(cmd, n);
      frame := RetryFrame(n, MapToUart(cmd, n));
      if frame.frame == "" {
        return;
      }
      if isStop {
        retryPolicy.CancelNonStop();
      }
      registered := retryPolicy.Start(n, frame.frame, isStop);
      if registered {
        latestRequestedSeq := n;
        callback := Enqueuing(frame, isStop);
        log := log + [Registered(n, cmd)];
      }
    }

    /** `enqueue_uart_command`. */
    method EnqueueUartCommand(frame: RetryFrame, highPriority: bool) returns (ok: bool)
      modifies this`commandQueue
      ensures ok == !stopWorker
      ensures commandQueue ==
        if stopWorker then old(commandQueue)
        else if highPriority then [frame] + old(commandQueue)
        else old(commandQueue) + [frame]
    {
      if stopWorker {
        return false;
      }
      if highPriority {
        commandQueue := [frame] + commandQueue;
      } else {
        commandQueue := commandQueue + [frame];
      }
      return true;
    }

    /** `command_callback` handing its frame over. */
    method EnqueueCommand(frame: RetryFrame, isStop: bool) returns (ok: bool)
      requires Valid() && callback == Enqueuing(frame, isStop)
      modifies this
      ensures Valid() && Model() == Step(old(Model()), Enqueue)
      ensures ok <==> callback == Idle
      ensures !ok ==> callback == Failing(frame.seqNo)
    {
      ok := EnqueueUartCommand(frame, isStop);
      callback := if ok then Idle else Failing(frame.seqNo);
    }

    /** `command_callback` after a refused hand-over. */
    method MarkSendFailed(n: uint32)
      requires Valid() && callback == Failing(n)
      modifies this, retryPolicy
      ensures Valid() && Model() == Step(old(Model()), GiveUp)
    {
      var _ := retryPolicy.MarkSendFailed(n);
      callback := Idle;
    }

    /** `uart_tx_worker` once its wait is over; nothing is returned when it has to leave. */
    method TakeFrame() returns (frame: Option<RetryFrame>)
      requires Valid() && tx == None && (stopWorker || commandQueue != [])
      modifies this
      ensures Valid()
      ensures old(stopWorker) ==> frame == None && Model() == old(Model())
      ensures !old(stopWorker) ==> Model() == Step(old(Model()), Action.TakeFrame) && tx == frame
    {
      if stopWorker {
        return None;
      }
      frame := Some(commandQueue[0]);
      commandQueue := commandQueue[1..];
      tx := frame;
    }

    /** `uart_tx_worker` under the table lock. `written` is what `write_uart` reports, if it is called. */
    method Transmit(frame: RetryFrame, written: bool, now: int)
      requires Valid() && tx == Some(frame) && clock <= now
      modifies this, retryPolicy
      ensures Valid() && Model() == Step(old(Model()), Action.Transmit(written, now))
    {
      clock, tx := now, None;
      if !retryPolicy.ShouldTransmit(frame.seqNo) {
        return;
      }
      if written {
        var _ := retryPolicy.MarkSent(frame.seqNo, now);
      } else {
        var _ := retryPolicy.MarkSendFailed(frame.seqNo);
      }
      log := log + [Attempted(frame.seqNo, frame.frame, written, now)];
    }

    /** `uart_rx_worker` with one assembled line. */
    method ReceiveLine(line: string, now: int) returns (accepted: bool)
      requires Valid() && clock <= now
      modifies this, retryPolicy
      ensures Valid()
      ensures match Parse(line + "\n")
        case None => !accepted && Model() == old(Model())
        case Some(ack) =>
          && Model() == DoReceiveAck(old(Model()), ack, now)
          && accepted == (ack.seqNo in old(retryPolicy.requests) && Accepts(old(retryPolicy.requests)[ack.seqNo], ack.status))
    {
      hide Parse;
      var ok, n, status := ParseAck(line + "\n", 0, AckStatus.Error);
      if !ok {
        return false;
      }
      clock := now;
      accepted := retryPolicy.OnAck(n, status, now);
      log := log + [Heard(n, status, accepted, now)];
    }

    /** `retry_worker` under the table lock. */
    method PollRetries(now: int) returns (frames: seq<RetryFrame>)
      requires Valid() && retry == [] && clock <= now
      modifies this, retryPolicy
      ensures Valid() && retry == frames
      ensures Enabled(old(Model()), Action.PollRetries(now, frames))
      ensures Model() == Step(old(Model()), Action.PollRetries(now, frames))
    {
      hide RetryBatch;
      frames := retryPolicy.Poll(now);
      clock, retry := now, frames;
    }

    /** `retry_worker` submitting the next frame of its batch; a refusal is ignored. */
    method Requeue(frame: RetryFrame)
      requires Valid() && retry != [] && retry[0] == frame
      modifies this
      ensures Valid() && Model() == Step(old(Model()), Action.Requeue)
    {
      var _ := EnqueueUartCommand(frame, false);
      retry := retry[1..];
    }

    /** The destructor's locked region. */
    method StopWorkers()
      requires Valid()
      modifies this
      ensures Valid() && Model() == Step(old(Model()), Shutdown)
    {
      stopWorker := true;
      commandQueue := [];
    }

    /** `status_callback`: the state of the command registered last. */
    method Status() returns (success: bool, message: string)
      requires Valid()
      ensures Reply(success, message) == StatusReply(Model())
    {
      if latestRequestedSeq == 0 {
        return false, "No command submitted";
      }
      if latestRequestedSeq !in retryPolicy.requests {
        return false, "Request not found";
      }
      var item := retryPolicy.requests[latestRequestedSeq];
      success := item.state == Succeeded;
      message := "SEQ:" + ToString(latestRequestedSeq) + " STATUS:" + StateName(item.state);
    }
  }
}

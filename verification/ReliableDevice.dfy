/** The device that executes each sequence number once and answers repeats from its cache. */
module ReliableDevice {
  import opened Basics
  import opened WireBytes
  import opened ReliableProtocol

  datatype Device = Device(
    cache: map<Number, Body>,
    received: nat,
    executed: nat,
    duplicates: nat,
    executions: seq<Body>)

  function NewDevice(): Device {
    Device(map[], 0, 0, 0, [])
  }

  datatype Handled = Handled(device: Device, reply: seq<byte>)

  /** `handleRequest`; the executions are the lines it reports as executed. */
  function Handle(d: Device, bytes: seq<byte>): Handled {
    match Decode(Request, bytes)
    case None => Handled(d, [])
    case Some(request) =>
      if request.sequence in d.cache then
        Handled(d.(received := d.received + 1, duplicates := d.duplicates + 1), Encode(Ack, d.cache[request.sequence]))
      else
        var ack := Body(request.sequence, RESULT_OK);
        Handled(
          d.(received := d.received + 1, executed := d.executed + 1,
             cache := d.cache[request.sequence := ack], executions := d.executions + [request]),
          Encode(Ack, ack))
  }

  datatype Session = Session(device: Device, replies: seq<seq<byte>>)

  /** Everything that is delivered to a new device, in order: lost, repeated, reordered and corrupted
      deliveries are all just other inputs. */
  function Serve(inputs: seq<seq<byte>>): Session {
    if inputs == [] then Session(NewDevice(), [])
    else
      var before := Serve(inputs[..|inputs| - 1]);
      var h := Handle(before.device, inputs[|inputs| - 1]);
      Session(h.device, before.replies + [h.reply])
  }

  /** Independent of any cache: the requests that are the first of their number among the inputs. */
  function FirstOfTheirNumber(inputs: seq<seq<byte>>): seq<Body> {
    if inputs == [] then []
    else
      var init := inputs[..|inputs| - 1];
      match Decode(Request, inputs[|inputs| - 1])
      case None => FirstOfTheirNumber(init)
      case Some(request) =>
        FirstOfTheirNumber(init) + if Mentions(init, request.sequence) then [] else [request]
  }

  predicate Mentions(inputs: seq<seq<byte>>, sequence: Number) {
    exists i :: 0 <= i < |inputs| && Asks(inputs[i], sequence)
  }

  predicate Asks(bytes: seq<byte>, sequence: Number) {
    Decode(Request, bytes).Some? && Decode(Request, bytes).value.sequence == sequence
  }

  function Decodable(inputs: seq<seq<byte>>): nat {
    if inputs == [] then 0
    else Decodable(inputs[..|inputs| - 1]) + if Decode(Request, inputs[|inputs| - 1]).Some? then 1 else 0
  }

  /** The device after any deliveries. */
  ghost predicate DeviceOk(d: Device, inputs: seq<seq<byte>>) {
    && (forall s :: s in d.cache <==> Mentions(inputs, s))
    && (forall s :: s in d.cache ==> d.cache[s] == Body(s, RESULT_OK))
    && d.executions == FirstOfTheirNumber(inputs)
    && d.received == Decodable(inputs) && d.received == d.executed + d.duplicates
    && d.executed == |d.cache| == |d.executions|
    && (forall i, j :: 0 <= i < j < |d.executions| ==> d.executions[i].sequence != d.executions[j].sequence)
    && (forall i :: 0 <= i < |d.executions| ==> d.executions[i].sequence in d.cache)
  }

  lemma MentionsSnoc(inputs: seq<seq<byte>>, bytes: seq<byte>, s: Number)
    ensures Mentions(inputs + [bytes], s) <==> Mentions(inputs, s) || Asks(bytes, s)
  {
    hide Asks;
    var all := inputs + [bytes];
    assert all[|inputs|] == bytes;
    if i :| 0 <= i < |inputs| && Asks(inputs[i], s) {
      assert Asks(all[i], s);
    }
    if i :| 0 <= i < |all| && Asks(all[i], s) {
      assert i < |inputs| ==> Asks(inputs[i], s);
    }
  }

  lemma {:induction false} ServeOk(inputs: seq<seq<byte>>)
    ensures DeviceOk(Serve(inputs).device, inputs)
  {
    hide Handle, DeviceOk;
    if inputs == [] {
      NewDeviceOk();
    } else {
      var init, bytes := inputs[..|inputs| - 1], inputs[|inputs| - 1];
      ServeOk(init);
      assert inputs == init + [bytes];
      HandleOk(Serve(init).device, init, bytes);
    }
  }

  lemma NewDeviceOk()
    ensures DeviceOk(NewDevice(), [])
  {
  }

  lemma Snoc(inputs: seq<seq<byte>>, bytes: seq<byte>)
    ensures Decodable(inputs + [bytes]) == Decodable(inputs) + if Decode(Request, bytes).Some? then 1 else 0
    ensures FirstOfTheirNumber(inputs + [bytes]) == FirstOfTheirNumber(inputs) +
      match Decode(Request, bytes)
      case None => []
      case Some(request) => if Mentions(inputs, request.sequence) then [] else [request]
  {
    hide Decode, Mentions;
    assert (inputs + [bytes])[..|inputs|] == inputs;
  }

  lemma HandleOk(d: Device, inputs: seq<seq<byte>>, bytes: seq<byte>)
    requires DeviceOk(d, inputs)
    ensures DeviceOk(Handle(d, bytes).device, inputs + [bytes])
  {
    hide Decode, Encode, Mentions, Decodable, FirstOfTheirNumber;
    Snoc(inputs, bytes);
    forall s ensures Mentions(inputs + [bytes], s) <==> Mentions(inputs, s) || Asks(bytes, s) { MentionsSnoc(inputs, bytes, s); }
  }

  /** At-most-once execution for every sequence of deliveries: each number is executed once, on its
      first decodable request, with that request's command; the counters agree with the cache. */
  lemma ExecutesFirstRequestsOnly(inputs: seq<seq<byte>>)
    ensures var d := Serve(inputs).device;
      && d.executions == FirstOfTheirNumber(inputs)
      && (forall i, j :: 0 <= i < j < |d.executions| ==> d.executions[i].sequence != d.executions[j].sequence)
      && d.executed == |d.executions| == |d.cache|
      && d.received == Decodable(inputs) == d.executed + d.duplicates
  {
    hide Serve, Mentions, FirstOfTheirNumber;
    ServeOk(inputs);
  }

  lemma ServePrefix(inputs: seq<seq<byte>>, i: nat)
    requires i < |inputs|
    ensures |Serve(inputs).replies| == |inputs|
    ensures Serve(inputs).replies[i] == Handle(Serve(inputs[..i]).device, inputs[i]).reply
  {
    hide Handle;
    var init := inputs[..|inputs| - 1];
    if i < |inputs| - 1 {
      ServePrefix(init, i);
      assert init[..i] == inputs[..i];
    } else if init != [] {
      ServePrefix(init, 0);
    }
  }

  /** Every request gets the same answer no matter how often or when it is delivered: the bytes of
      a positive acknowledgement of its own number, which decode back to just that. */
  lemma RepliesAreStable(inputs: seq<seq<byte>>, i: nat, s: Number)
    requires i < |inputs| && Asks(inputs[i], s)
    ensures |Serve(inputs).replies| == |inputs|
    ensures Serve(inputs).replies[i] == Encode(Ack, Body(s, 0x00))
    ensures Decode(Ack, Serve(inputs).replies[i]) == Some(Body(s, 0x00))
  {
    hide Decode, Serve, Encode, Mentions, FirstOfTheirNumber, Decodable;
    ServePrefix(inputs, i);
    ServeOk(inputs[..i]);
    AckDecodes(Body(s, RESULT_OK));
  }

  lemma AckDecodes(f: Body)
    ensures Decode(Ack, Encode(Ack, f)) == Some(f)
  {
    hide Decode, Frame;
    DecodeOfFrame(LENGTH, Ack, f);
  }

  // ---- Junk ----

  function Requests(inputs: seq<seq<byte>>): seq<seq<byte>> {
    if inputs == [] then []
    else
      var last := inputs[|inputs| - 1];
      Requests(inputs[..|inputs| - 1]) + if Decode(Request, last).Some? then [last] else []
  }

  /** The replies that carry bytes, in order. */
  function Answers(replies: seq<seq<byte>>): seq<seq<byte>> {
    if replies == [] then []
    else Answers(replies[..|replies| - 1]) + if replies[|replies| - 1] != [] then [replies[|replies| - 1]] else []
  }

  /** What does not decode may as well not have been delivered: the device ends as if it had seen the
      decodable deliveries only, and it says the same in the same order. */
  lemma {:induction false} JunkDoesNotMatter(inputs: seq<seq<byte>>)
    ensures Serve(inputs).device == Serve(Requests(inputs)).device
    ensures Answers(Serve(inputs).replies) == Serve(Requests(inputs)).replies
  {
    hide Handle, Decode;
    if inputs == [] {
      assert Requests(inputs) == [] && Answers(Serve(inputs).replies) == [];
    } else {
      hide Serve, Answers, Requests;
      var init, last := inputs[..|inputs| - 1], inputs[|inputs| - 1];
      assert inputs == init + [last];
      JunkDoesNotMatter(init);
      RequestsSnoc(init, last);
      RepliesToRequestsOnly(Serve(init).device, last);
      AnswersSnoc(Serve(init).replies, Handle(Serve(init).device, last).reply);
      ServeSnoc(init, last);
      ServeSnoc(Requests(init), last);
    }
  }

  lemma ServeSnoc(inputs: seq<seq<byte>>, bytes: seq<byte>)
    ensures var before := Serve(inputs);
      var h := Handle(before.device, bytes);
      Serve(inputs + [bytes]) == Session(h.device, before.replies + [h.reply])
  {
    hide Handle;
    assert (inputs + [bytes])[..|inputs|] == inputs;
  }

  lemma RequestsSnoc(inputs: seq<seq<byte>>, bytes: seq<byte>)
    ensures Requests(inputs + [bytes]) == if Decode(Request, bytes).Some? then Requests(inputs) + [bytes] else Requests(inputs)
  {
    hide Decode;
    assert (inputs + [bytes])[..|inputs|] == inputs;
  }

  lemma AnswersSnoc(replies: seq<seq<byte>>, reply: seq<byte>)
    ensures Answers(replies + [reply]) == if reply != [] then Answers(replies) + [reply] else Answers(replies)
  {
    assert (replies + [reply])[..|replies|] == replies;
  }

  lemma RepliesToRequestsOnly(d: Device, bytes: seq<byte>)
    ensures Handle(d, bytes).reply != [] <==> Decode(Request, bytes).Some?
    ensures Decode(Request, bytes).None? ==> Handle(d, bytes).device == d
  {
    hide Decode;
  }

  /** A retransmission protocol may therefore repeat a request any number of times, with any single
      byte of any copy corrupted on the way: the device executes it exactly once. */
  lemma RetransmissionsExecuteOnce(f: Body, copies: seq<seq<byte>>)
    requires forall i :: 0 <= i < |copies| ==> copies[i] == Encode(Request, f) || OneByteOff(copies[i], f)
    ensures var d := Serve(copies).device;
      d.executions == if Encode(Request, f) in copies then [f] else []
  {
    hide Serve, Encode, Decode, OneByteOff;
    ExecutesFirstRequestsOnly(copies);
    FirstAmongCopies(f, copies);
  }

  /** The request with exactly one byte changed. */
  ghost predicate OneByteOff(bytes: seq<byte>, f: Body) {
    && |bytes| == FRAME_SIZE
    && exists k :: 0 <= k < FRAME_SIZE && bytes[k] != Encode(Request, f)[k] && bytes == Encode(Request, f)[k := bytes[k]]
  }

  lemma {:induction false} FirstAmongCopies(f: Body, copies: seq<seq<byte>>)
    requires forall i :: 0 <= i < |copies| ==> copies[i] == Encode(Request, f) || OneByteOff(copies[i], f)
    ensures FirstOfTheirNumber(copies) == if Encode(Request, f) in copies then [f] else []
    ensures Mentions(copies, f.sequence) <==> Encode(Request, f) in copies
  {
    hide Encode, Decode, OneByteOff, Mentions;
    if copies == [] {
      NoneMentioned(f.sequence);
    } else {
      var init, last := copies[..|copies| - 1], copies[|copies| - 1];
      FirstAmongCopies(f, init);
      assert copies == init + [last];
      MentionsSnoc(init, last, f.sequence);
      CopyDecodes(last, f);
    }
  }

  lemma NoneMentioned(s: Number)
    ensures !Mentions([], s)
  {
  }

  lemma CopyDecodes(bytes: seq<byte>, f: Body)
    requires bytes == Encode(Request, f) || OneByteOff(bytes, f)
    ensures Decode(Request, bytes) == if bytes == Encode(Request, f) then Some(f) else None
  {
    hide Decode, Encode;
    RequestDecodes(f);
    if OneByteOff(bytes, f) {
      var k :| 0 <= k < FRAME_SIZE && bytes[k] != Encode(Request, f)[k] && bytes == Encode(Request, f)[k := bytes[k]];
      CorruptedIsRejected(Request, f, k, bytes[k]);
    }
  }

  lemma RequestDecodes(f: Body)
    ensures Decode(Request, Encode(Request, f)) == Some(f)
  {
    hide Decode, Frame;
    DecodeOfFrame(LENGTH, Request, f);
  }

  /** `SimulatedDevice`. */
  class SimulatedDevice {
    var ackCache: map<Number, Body>
    var received: nat
    var executed: nat
    var duplicates: nat
    ghost var executions: seq<Body>

    ghost function Model(): Device
      reads this
    {
      Device(ackCache, received, executed, duplicates, executions)
    }

    constructor ()
      ensures Model() == NewDevice()
    {
      ackCache, received, executed, duplicates, executions := map[], 0, 0, 0, [];
    }

    method HandleRequest(bytes: seq<byte>) returns (reply: seq<byte>)
      modifies this
      ensures Handled(Model(), reply) == Handle(old(Model()), bytes)
    {
      hide Encode;
      var ok, request := DecodeRequest(bytes, Body(Number(0), 0));
      if !ok {
        return [];
      }
      received := received + 1;
      if request.sequence in ackCache {
        duplicates := duplicates + 1;
        return Encode(Ack, ackCache[request.sequence]);
      }
      executed := executed + 1;
      executions := executions + [request];
      var ack := Body(request.sequence, RESULT_OK);
      ackCache := ackCache[request.sequence := ack];
      return Encode(Ack, ack);
    }
  }

  /** `decodeRequest`; a refused input leaves the caller's frame alone. */
  method DecodeRequest(bytes: seq<byte>, frameIn: Body) returns (ok: bool, frame: Body)
    ensures ok <==> Decode(Request, bytes).Some?
    ensures ok ==> Decode(Request, bytes) == Some(frame)
    ensures !ok ==> frame == frameIn
  {
    frame := frameIn;
    if |bytes| != 10 || bytes[0] != HEADER1 || bytes[1] != HEADER2 {
      return false, frame;
    }
    if bytes[8] != TAIL1 || bytes[9] != TAIL2 || bytes[5] != TypeByte(Request) {
      return false, frame;
    }
    var checksum := CalculateChecksum(bytes, 2, 7);
    if checksum != bytes[7] {
      return false, frame;
    }
    return true, Body(Number(Join(bytes[3], bytes[4])), bytes[6]);
  }
}

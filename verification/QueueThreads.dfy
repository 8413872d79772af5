/** Producer and consumer threads around the bounded queue, interleaved at the mutex. A thread that
    sleeps on a condition variable is in a wait set; a signal or a spurious wakeup moves it to the
    woken set, from which it still has to take the mutex and check its condition again. */
module QueueThreads {
  import opened Basics
  import opened BoundedQueues

  type Tid = nat

  /** `Working`: in the loop. `Closing`: about to call `queue_close`. `Finished`: returned. */
  datatype Phase = Working | Closing | Finished

  datatype Producer = Producer(sequence: nat, phase: Phase, failed: bool)

  datatype Consumer = Consumer(expected: nat, phase: Phase, failed: bool, received: int)

  datatype State = State(
    ring: Ring,
    producers: map<Tid, Producer>,
    consumers: map<Tid, Consumer>,
    sleepingProducers: set<Tid>,
    wokenProducers: set<Tid>,
    sleepingConsumers: set<Tid>,
    wokenConsumers: set<Tid>,
    pushed: seq<SensorMessage>,
    popped: seq<SensorMessage>)

  datatype Action =
    | PushStep(p: Tid, wake: Option<Tid>)
    | PopStep(c: Tid, wake: Option<Tid>)
    | ProducerCloses(p: Tid)
    | ConsumerCloses(c: Tid)
    | SpuriousProducer(p: Tid)
    | SpuriousConsumer(c: Tid)

  function MessageOf(sequence: nat): SensorMessage {
    SensorMessage(sequence, 250 + sequence % 10, 600 + sequence % 10)
  }

  /** The messages 1 to k. */
  function Messages(k: nat): seq<SensorMessage> {
    if k == 0 then [] else Messages(k - 1) + [MessageOf(k)]
  }

  function NextPhase(sequence: nat, n: nat): Phase {
    if sequence <= n then Working else Closing
  }

  /** Every producer is to push 1 to n and close; every consumer pops until the queue is closed. */
  function Init(n: nat, producers: set<Tid>, consumers: set<Tid>): State {
    State(
      Ring(seq(CAPACITY, _ => SensorMessage(0, 0, 0)), 0, 0, 0, false),
      map p | p in producers :: Producer(1, NextPhase(1, n), false),
      map c | c in consumers :: Consumer(1, Working, false, 0),
      {}, {}, {}, {}, [], [])
  }

  /** `pthread_cond_signal` wakes one sleeper if there is any. */
  predicate Signals(sleeping: set<Tid>, wake: Option<Tid>) {
    if sleeping == {} then wake == None else wake.Some? && wake.value in sleeping
  }

  function Chosen(wake: Option<Tid>): set<Tid> {
    if wake.Some? then {wake.value} else {}
  }

  predicate CanPush(r: Ring) {
    r.count < CAPACITY && !r.closed
  }

  predicate Enabled(s: State, a: Action) {
    match a
    case PushStep(p, wake) =>
      && p in s.producers && s.producers[p].phase == Working && p !in s.sleepingProducers
      && (if CanPush(s.ring) then Signals(s.sleepingConsumers, wake) else wake == None)
    case PopStep(c, wake) =>
      && c in s.consumers && s.consumers[c].phase == Working && c !in s.sleepingConsumers
      && (if s.ring.count > 0 then Signals(s.sleepingProducers, wake) else wake == None)
    case ProducerCloses(p) => p in s.producers && s.producers[p].phase == Closing
    case ConsumerCloses(c) => c in s.consumers && s.consumers[c].phase == Closing
    case SpuriousProducer(p) => p in s.sleepingProducers
    case SpuriousConsumer(c) => c in s.sleepingConsumers
  }

  /** `queue_push` from taking the mutex to releasing it or sleeping, and what `producer_thread` does next. */
  function Push(s: State, p: Tid, wake: Option<Tid>, n: nat): State
    requires RingOk(s.ring) && p in s.producers
  {
    var me := s.producers[p];
    var up := s.(wokenProducers := s.wokenProducers - {p});
    if s.ring.count == CAPACITY && !s.ring.closed then up.(sleepingProducers := s.sleepingProducers + {p})
    else if s.ring.closed then up.(producers := s.producers[p := me.(failed := true, phase := Closing)])
    else
      var m := MessageOf(me.sequence);
      up.(
        ring := Pushed(s.ring, m),
        pushed := s.pushed + [m],
        producers := s.producers[p := me.(sequence := me.sequence + 1, phase := NextPhase(me.sequence + 1, n))],
        sleepingConsumers := s.sleepingConsumers - Chosen(wake),
        wokenConsumers := s.wokenConsumers + Chosen(wake))
  }

  /** `queue_pop`, and what `consumer_thread` does with the result. */
  function Pop(s: State, c: Tid, wake: Option<Tid>): State
    requires RingOk(s.ring) && c in s.consumers
  {
    var me := s.consumers[c];
    var up := s.(wokenConsumers := s.wokenConsumers - {c});
    if s.ring.count == 0 && !s.ring.closed then up.(sleepingConsumers := s.sleepingConsumers + {c})
    else if s.ring.count == 0 then up.(consumers := s.consumers[c := me.(phase := Finished, received := me.expected - 1)])
    else
      var m := s.ring.items[s.ring.head];
      up.(
        ring := Popped(s.ring),
        popped := s.popped + [m],
        consumers := s.consumers[c :=
          if m.sequence != me.expected then me.(failed := true, phase := Closing)
          else me.(expected := me.expected + 1)],
        sleepingProducers := s.sleepingProducers - Chosen(wake),
        wokenProducers := s.wokenProducers + Chosen(wake))
  }

  /** `queue_close`: set the flag and wake everybody. */
  function Close(s: State): State {
    s.(
      ring := s.ring.(closed := true),
      sleepingProducers := {}, wokenProducers := s.wokenProducers + s.sleepingProducers,
      sleepingConsumers := {}, wokenConsumers := s.wokenConsumers + s.sleepingConsumers)
  }

  function Step(s: State, a: Action, n: nat): State
    requires RingOk(s.ring) && Enabled(s, a)
  {
    match a
    case PushStep(p, wake) => Push(s, p, wake, n)
    case PopStep(c, wake) => Pop(s, c, wake)
    case ProducerCloses(p) => Close(s.(producers := s.producers[p := s.producers[p].(phase := Finished)]))
    case ConsumerCloses(c) => Close(s.(consumers := s.consumers[c := s.consumers[c].(phase := Finished)]))
    case SpuriousProducer(p) =>
      s.(sleepingProducers := s.sleepingProducers - {p}, wokenProducers := s.wokenProducers + {p})
    case SpuriousConsumer(c) =>
      s.(sleepingConsumers := s.sleepingConsumers - {c}, wokenConsumers := s.wokenConsumers + {c})
  }

  // ---- FIFO ----

  ghost predicate Fifo(s: State) {
    RingOk(s.ring) && s.popped + Contents(s.ring) == s.pushed
  }

  lemma FifoKept(s: State, a: Action, n: nat)
    requires Fifo(s) && Enabled(s, a)
    ensures Fifo(Step(s, a, n))
  {
    hide Contents, RingOk;
    ContentsSize(s.ring);
    match a
    case PushStep(p, wake) =>
      if CanPush(s.ring) {
        PushedAppends(s.ring, MessageOf(s.producers[p].sequence));
      }
    case PopStep(c, wake) =>
      if s.ring.count > 0 {
        PoppedRemoves(s.ring);
      }
    case ProducerCloses(p) => ClosedSame(s.ring);
    case ConsumerCloses(c) => ClosedSame(s.ring);
    case _ =>
  }

  lemma ClosedSame(r: Ring)
    requires RingOk(r)
    ensures RingOk(r.(closed := true)) && Contents(r.(closed := true)) == Contents(r)
  {
  }

  // ---- Wakeups ----

  predicate WorkingProducer(s: State, p: Tid) {
    p in s.producers && s.producers[p].phase == Working
  }

  predicate WorkingConsumer(s: State, c: Tid) {
    c in s.consumers && s.consumers[c].phase == Working
  }

  ghost predicate SetsOk(s: State) {
    && s.sleepingProducers !! s.wokenProducers
    && s.sleepingConsumers !! s.wokenConsumers
    && (forall p :: p in s.sleepingProducers || p in s.wokenProducers ==> WorkingProducer(s, p))
    && (forall c :: c in s.sleepingConsumers || c in s.wokenConsumers ==> WorkingConsumer(s, c))
  }

  /** No lost wakeup: while a consumer sleeps, every message in the ring has its own woken consumer;
      while a producer sleeps, every free slot has its own woken producer; nobody sleeps on a closed queue. */
  ghost predicate NoLostWakeup(s: State) {
    && (s.sleepingConsumers != {} ==> s.ring.count <= |s.wokenConsumers|)
    && (s.sleepingProducers != {} ==> CAPACITY - s.ring.count <= |s.wokenProducers|)
    && (s.ring.closed ==> s.sleepingConsumers == {} && s.sleepingProducers == {})
  }

  ghost predicate FinishedMeansClosed(s: State) {
    && (forall p :: p in s.producers && s.producers[p].phase == Finished ==> s.ring.closed)
    && (forall c :: c in s.consumers && s.consumers[c].phase == Finished ==> s.ring.closed)
  }

  lemma SetsKept(s: State, a: Action, n: nat)
    requires RingOk(s.ring) && SetsOk(s) && Enabled(s, a)
    ensures SetsOk(Step(s, a, n))
  {
    hide RingOk, Pushed, Popped;
  }

  lemma WakeupsKept(s: State, a: Action, n: nat)
    requires RingOk(s.ring) && SetsOk(s) && NoLostWakeup(s) && Enabled(s, a)
    ensures NoLostWakeup(Step(s, a, n))
  {
    match a
    case PushStep(p, wake) => PushKeepsWakeups(s, p, wake, n);
    case PopStep(c, wake) => PopKeepsWakeups(s, c, wake);
    case _ =>
  }

  lemma PushKeepsWakeups(s: State, p: Tid, wake: Option<Tid>, n: nat)
    requires RingOk(s.ring) && SetsOk(s) && NoLostWakeup(s) && Enabled(s, PushStep(p, wake))
    ensures NoLostWakeup(Push(s, p, wake, n))
  {
    assert |s.wokenProducers - {p}| >= |s.wokenProducers| - 1 by { Without(s.wokenProducers, p); }
    if CanPush(s.ring) && wake.Some? {
      assert |s.wokenConsumers + {wake.value}| == |s.wokenConsumers| + 1;
    }
  }

  lemma PopKeepsWakeups(s: State, c: Tid, wake: Option<Tid>)
    requires RingOk(s.ring) && SetsOk(s) && NoLostWakeup(s) && Enabled(s, PopStep(c, wake))
    ensures NoLostWakeup(Pop(s, c, wake))
  {
    assert |s.wokenConsumers - {c}| >= |s.wokenConsumers| - 1 by { Without(s.wokenConsumers, c); }
    if s.ring.count > 0 && wake.Some? {
      assert |s.wokenProducers + {wake.value}| == |s.wokenProducers| + 1;
    }
  }

  lemma Without(xs: set<Tid>, x: Tid)
    ensures |xs - {x}| >= |xs| - 1
  {
    if x in xs {
      assert xs == (xs - {x}) + {x};
    } else {
      assert xs - {x} == xs;
    }
  }

  lemma FinishedKept(s: State, a: Action, n: nat)
    requires RingOk(s.ring) && FinishedMeansClosed(s) && Enabled(s, a)
    ensures FinishedMeansClosed(Step(s, a, n))
  {
    hide RingOk;
  }

  // ---- Runs ----

  ghost predicate Inv(s: State) {
    Fifo(s) && SetsOk(s) && NoLostWakeup(s) && FinishedMeansClosed(s)
  }

  lemma StepInv(s: State, a: Action, n: nat)
    requires Inv(s) && Enabled(s, a)
    ensures Inv(Step(s, a, n))
  {
    hide Step, Enabled, SetsOk, NoLostWakeup, FinishedMeansClosed, RingOk, Contents;
    FifoKept(s, a, n);
    SetsKept(s, a, n);
    WakeupsKept(s, a, n);
    FinishedKept(s, a, n);
  }

  lemma InitInv(n: nat, producers: set<Tid>, consumers: set<Tid>)
    ensures Inv(Init(n, producers, consumers))
  {
  }

  /** A run of producers and consumers, each producer with n items. */
  ghost predicate Run(states: seq<State>, actions: seq<Action>, n: nat, producers: set<Tid>, consumers: set<Tid>) {
    && |states| == |actions| + 1
    && states[0] == Init(n, producers, consumers)
    && forall i :: 0 <= i < |actions| ==>
         RingOk(states[i].ring) && Enabled(states[i], actions[i]) && states[i + 1] == Step(states[i], actions[i], n)
  }

  lemma SameThreads(s: State, a: Action, n: nat)
    requires RingOk(s.ring) && Enabled(s, a)
    ensures Step(s, a, n).producers.Keys == s.producers.Keys && Step(s, a, n).consumers.Keys == s.consumers.Keys
  {
    hide RingOk, Pushed, Popped;
  }

  lemma {:induction false} RunInv(states: seq<State>, actions: seq<Action>, n: nat, producers: set<Tid>, consumers: set<Tid>, i: nat)
    requires Run(states, actions, n, producers, consumers) && i < |states|
    ensures Inv(states[i]) && states[i].producers.Keys == producers && states[i].consumers.Keys == consumers
  {
    hide Step, Enabled, Inv, RingOk;
    if i == 0 {
      InitInv(n, producers, consumers);
      InitThreads(n, producers, consumers);
    } else {
      RunInv(states, actions, n, producers, consumers, i - 1);
      assert states[i - 1 + 1] == Step(states[i - 1], actions[i - 1], n);
      StepInv(states[i - 1], actions[i - 1], n);
      SameThreads(states[i - 1], actions[i - 1], n);
    }
  }

  lemma InitThreads(n: nat, producers: set<Tid>, consumers: set<Tid>)
    ensures Init(n, producers, consumers).producers.Keys == producers
    ensures Init(n, producers, consumers).consumers.Keys == consumers
  {
  }

  /** The queue refines a first-in first-out sequence, for any number of threads. */
  lemma QueueIsFifo(states: seq<State>, actions: seq<Action>, n: nat, producers: set<Tid>, consumers: set<Tid>, i: nat)
    requires Run(states, actions, n, producers, consumers) && i < |states|
    ensures RingOk(states[i].ring) && states[i].popped + Contents(states[i].ring) == states[i].pushed
  {
    hide Run, RingOk, Contents, SetsOk, NoLostWakeup, FinishedMeansClosed;
    RunInv(states, actions, n, producers, consumers, i);
  }

  lemma NoWakeupIsLost(states: seq<State>, actions: seq<Action>, n: nat, producers: set<Tid>, consumers: set<Tid>, i: nat)
    requires Run(states, actions, n, producers, consumers) && i < |states|
    ensures NoLostWakeup(states[i])
  {
    hide Run, RingOk, Contents, SetsOk, NoLostWakeup, FinishedMeansClosed;
    RunInv(states, actions, n, producers, consumers, i);
  }

  predicate Unfinished(s: State) {
    || (exists p :: p in s.producers && s.producers[p].phase != Finished)
    || (exists c :: c in s.consumers && s.consumers[c].phase != Finished)
  }

  /** Someone can always go on, without help from spurious wakeups. */
  lemma NeverStuck(states: seq<State>, actions: seq<Action>, n: nat, producers: set<Tid>, consumers: set<Tid>, i: nat)
    requires Run(states, actions, n, producers, consumers) && i < |states|
    requires producers != {} && consumers != {} && Unfinished(states[i])
    ensures exists a :: Enabled(states[i], a) && !a.SpuriousProducer? && !a.SpuriousConsumer?
  {
    hide Run, Fifo, Enabled, NoLostWakeup, SetsOk, FinishedMeansClosed;
    RunInv(states, actions, n, producers, consumers, i);
    var s := states[i];
    var p :| p in producers;
    var c :| c in consumers;
    RingBounds(s);
    SomebodyIsAwake(s, p, c);
    if p :| AwakeProducer(s, p) {
      AwakeProducerSteps(s, p);
    } else {
      var c :| AwakeConsumer(s, c);
      AwakeConsumerSteps(s, c);
    }
  }

  lemma RingBounds(s: State)
    requires Fifo(s)
    ensures s.ring.count <= CAPACITY
  {
  }

  predicate AwakeProducer(s: State, p: Tid) {
    p in s.producers && p !in s.sleepingProducers && s.producers[p].phase != Finished
  }

  predicate AwakeConsumer(s: State, c: Tid) {
    c in s.consumers && c !in s.sleepingConsumers && s.consumers[c].phase != Finished
  }

  /** Both kinds of thread cannot all be asleep: the ring would have to be empty and full at once. */
  lemma SomebodyIsAwake(s: State, p: Tid, c: Tid)
    requires SetsOk(s) && NoLostWakeup(s) && FinishedMeansClosed(s) && s.ring.count <= CAPACITY
    requires p in s.producers && c in s.consumers && Unfinished(s)
    ensures (exists p :: AwakeProducer(s, p)) || (exists c :: AwakeConsumer(s, c))
  {
    if s.wokenProducers != {} {
      var w :| w in s.wokenProducers;
      assert AwakeProducer(s, w);
    } else if s.wokenConsumers != {} {
      var w :| w in s.wokenConsumers;
      assert AwakeConsumer(s, w);
    } else if s.sleepingConsumers != {} {
      assert AwakeProducer(s, p);
    } else if s.sleepingProducers != {} {
      assert AwakeConsumer(s, c);
    } else if q :| q in s.producers && s.producers[q].phase != Finished {
      assert AwakeProducer(s, q);
    } else {
      var d :| d in s.consumers && s.consumers[d].phase != Finished;
      assert AwakeConsumer(s, d);
    }
  }

  lemma AwakeProducerSteps(s: State, p: Tid)
    requires AwakeProducer(s, p)
    ensures exists a :: Enabled(s, a) && !a.SpuriousProducer? && !a.SpuriousConsumer?
  {
    if s.producers[p].phase == Closing {
      assert Enabled(s, ProducerCloses(p));
    } else if CanPush(s.ring) && s.sleepingConsumers != {} {
      var c :| c in s.sleepingConsumers;
      assert Enabled(s, PushStep(p, Some(c)));
    } else {
      assert Enabled(s, PushStep(p, None));
    }
  }

  lemma AwakeConsumerSteps(s: State, c: Tid)
    requires AwakeConsumer(s, c)
    ensures exists a :: Enabled(s, a) && !a.SpuriousProducer? && !a.SpuriousConsumer?
  {
    if s.consumers[c].phase == Closing {
      assert Enabled(s, ConsumerCloses(c));
    } else if s.ring.count > 0 && s.sleepingProducers != {} {
      var p :| p in s.sleepingProducers;
      assert Enabled(s, PopStep(c, Some(p)));
    } else {
      assert Enabled(s, PopStep(c, None));
    }
  }

  // ---- One producer, one consumer ----

  lemma {:induction false} MessagesAt(k: nat)
    ensures |Messages(k)| == k
    ensures forall i :: 0 <= i < k ==> Messages(k)[i] == MessageOf(i + 1)
  {
    if k > 0 {
      MessagesAt(k - 1);
    }
  }

  ghost predicate Solo(s: State, p: Tid, c: Tid, n: nat)
    requires RingOk(s.ring) && p in s.producers && c in s.consumers
  {
    var me, you := s.producers[p], s.consumers[c];
    && 1 <= me.sequence <= n + 1 && !me.failed
    && (me.phase == Working <==> me.sequence <= n)
    && s.pushed == Messages(me.sequence - 1)
    && (s.ring.closed <==> me.phase == Finished)
    && 1 <= you.expected && !you.failed && you.phase != Closing
    && s.popped == Messages(you.expected - 1)
    && (you.phase == Finished ==> s.ring.closed && s.ring.count == 0 && you.received == n)
  }

  /** With one thread on each side nothing can go wrong: the consumer sees 1, 2, 3, ... */
  lemma SoloKept(s: State, a: Action, p: Tid, c: Tid, n: nat)
    requires Fifo(s) && s.producers.Keys == {p} && s.consumers.Keys == {c} && Enabled(s, a)
    requires Solo(s, p, c, n)
    ensures Fifo(Step(s, a, n)) && Step(s, a, n).producers.Keys == {p} && Step(s, a, n).consumers.Keys == {c}
    ensures Solo(Step(s, a, n), p, c, n)
  {
    hide Contents, RingOk, Messages;
    FifoKept(s, a, n);
    SameThreads(s, a, n);
    match a
    case PushStep(q, wake) =>
      assert q == p;
      SoloPush(s, p, c, wake, n);
    case PopStep(d, wake) =>
      assert d == c;
      SoloPop(s, p, c, wake, n);
    case ProducerCloses(q) => assert q == p;
    case _ =>
  }

  lemma SoloPush(s: State, p: Tid, c: Tid, wake: Option<Tid>, n: nat)
    requires Fifo(s) && s.producers.Keys == {p} && s.consumers.Keys == {c}
    requires Solo(s, p, c, n) && Enabled(s, PushStep(p, wake))
    requires RingOk(Push(s, p, wake, n).ring)
    ensures Solo(Push(s, p, wake, n), p, c, n)
  {
    hide Contents, RingOk;
    ContentsSize(s.ring);
  }

  lemma SoloPop(s: State, p: Tid, c: Tid, wake: Option<Tid>, n: nat)
    requires Fifo(s) && s.producers.Keys == {p} && s.consumers.Keys == {c}
    requires Solo(s, p, c, n) && Enabled(s, PopStep(c, wake))
    requires RingOk(Pop(s, c, wake).ring)
    ensures Solo(Pop(s, c, wake), p, c, n)
  {
    hide Contents, RingOk;
    var k := s.consumers[c].expected - 1;
    MessagesAt(s.producers[p].sequence - 1);
    MessagesAt(k);
    ContentsSize(s.ring);
    if s.ring.count > 0 {
      assert s.pushed[k] == Contents(s.ring)[0];
      assert Messages(k + 1) == s.popped + [MessageOf(k + 1)];
    }
  }

  lemma ContentsSize(r: Ring)
    requires RingOk(r)
    ensures r.count <= CAPACITY && r.head < |r.items| && |Contents(r)| == r.count
    ensures r.count > 0 ==> Contents(r)[0] == r.items[r.head]
  {
    SlotWalks(r.head, 0);
  }

  lemma {:induction false} SoloRun(states: seq<State>, actions: seq<Action>, n: nat, p: Tid, c: Tid, i: nat)
    requires Run(states, actions, n, {p}, {c}) && i < |states|
    ensures Fifo(states[i]) && states[i].producers.Keys == {p} && states[i].consumers.Keys == {c}
    ensures Solo(states[i], p, c, n)
  {
    hide Step, Enabled, Fifo, RingOk, Solo, Contents;
    if i == 0 {
      SoloInit(n, p, c);
    } else {
      SoloRun(states, actions, n, p, c, i - 1);
      assert states[i - 1 + 1] == Step(states[i - 1], actions[i - 1], n);
      SoloKept(states[i - 1], actions[i - 1], p, c, n);
    }
  }

  lemma SoloInit(n: nat, p: Tid, c: Tid)
    ensures var s := Init(n, {p}, {c});
      Fifo(s) && s.producers.Keys == {p} && s.consumers.Keys == {c} && Solo(s, p, c, n)
  {
  }

  /** In every interleaving the consumer's order check holds and neither thread fails; when the
      consumer has returned it has received exactly 1 to n, the queue is closed and empty. */
  lemma ConsumerReceivesAll(states: seq<State>, actions: seq<Action>, n: nat, p: Tid, c: Tid, i: nat)
    requires Run(states, actions, n, {p}, {c}) && i < |states|
    ensures p in states[i].producers && c in states[i].consumers
    ensures !states[i].producers[p].failed && !states[i].consumers[c].failed
    ensures states[i].popped == Messages(|states[i].popped|)
    ensures states[i].consumers[c].phase == Finished ==>
      && states[i].popped == Messages(n) && states[i].consumers[c].received == n
      && states[i].ring.count == 0 && states[i].ring.closed
      && states[i].producers[p] == Producer(n + 1, Finished, false)
  {
    hide Run, Contents, RingOk;
    SoloRun(states, actions, n, p, c, i);
    ContentsSize(states[i].ring);
    MessagesAt(states[i].consumers[c].expected - 1);
    MessagesAt(states[i].producers[p].sequence - 1);
  }
}

/** What the queue and its threads have to show for themselves, for any number of threads: every
    message pushed and popped is accounted for by a thread, and every way a thread ends is explained. */
module QueueAccounts {
  import opened Basics
  import opened BoundedQueues
  import opened QueueThreads
  import opened QueueTermination

  // ---- Producers ----

  /** The producers that are past message `j`. */
  function Past(s: State, j: nat): set<Tid> {
    set p | p in s.producers && s.producers[p].sequence > j
  }

  /** Message `j` is in the queue's history once for every producer that is past it. */
  ghost predicate PushesAccounted(s: State) {
    && (forall p :: p in s.producers ==> s.producers[p].sequence >= 1)
    && forall j: nat :: j >= 1 ==> multiset(s.pushed)[MessageOf(j)] == |Past(s, j)|
  }

  ghost predicate ProducerEnds(s: State, n: nat) {
    forall p :: p in s.producers ==>
      var me := s.producers[p];
      && (me.phase == Working ==> !me.failed && me.sequence <= n)
      && (me.phase != Working && !me.failed ==> me.sequence == n + 1)
      && (me.failed ==> s.ring.closed && me.sequence <= n)
  }

  lemma PushAccounted(s: State, p: Tid, wake: Option<Tid>, n: nat)
    requires RingOk(s.ring) && PushesAccounted(s) && Enabled(s, PushStep(p, wake))
    ensures PushesAccounted(Push(s, p, wake, n))
  {
    hide Pushed, MessageOf;
    var s' := Push(s, p, wake, n);
    if CanPush(s.ring) {
      OnePush(s, s', p, s'.producers[p]);
    } else {
      assert s'.pushed == s.pushed;
      NobodyPasses(s, s');
    }
  }

  lemma OnePush(s: State, s': State, p: Tid, x: Producer)
    requires PushesAccounted(s) && p in s.producers && x.sequence == s.producers[p].sequence + 1
    requires s'.producers == s.producers[p := x] && s'.pushed == s.pushed + [MessageOf(s.producers[p].sequence)]
    ensures PushesAccounted(s')
  {
    var k := s.producers[p].sequence;
    OnlyOneMore(s.pushed, k);
    hide MessageOf, Past;
    forall j: nat | j >= 1
      ensures multiset(s'.pushed)[MessageOf(j)] == |Past(s', j)|
    {
      PastGrows(s, s', p, x, j);
    }
  }

  lemma PastGrows(s: State, s': State, p: Tid, x: Producer, j: nat)
    requires p in s.producers && x.sequence == s.producers[p].sequence + 1 && s'.producers == s.producers[p := x]
    ensures |Past(s', j)| == |Past(s, j)| + if j == s.producers[p].sequence then 1 else 0
  {
    OnePasses(s.producers, p, x, j);
    assert Past(s', j) == if j == s.producers[p].sequence then Past(s, j) + {p} else Past(s, j);
  }

  lemma OnePasses(producers: map<Tid, Producer>, p: Tid, x: Producer, j: nat)
    requires p in producers && x.sequence == producers[p].sequence + 1
    ensures forall q :: q in producers[p := x] && producers[p := x][q].sequence > j <==>
      (q in producers && producers[q].sequence > j) || (q == p && j == producers[p].sequence)
  {
  }

  lemma NobodyPasses(s: State, s': State)
    ensures s'.producers.Keys == s.producers.Keys && (forall p :: p in s.producers ==> s'.producers[p].sequence == s.producers[p].sequence) ==>
      forall j: nat :: Past(s', j) == Past(s, j)
  {
    if s'.producers.Keys == s.producers.Keys && forall p :: p in s.producers ==> s'.producers[p].sequence == s.producers[p].sequence {
      forall j: nat
        ensures Past(s', j) == Past(s, j)
      {
        forall p ensures p in Past(s', j) <==> p in Past(s, j) {
          assert p in s'.producers <==> p in s.producers;
        }
      }
    }
  }

  lemma OnlyOneMore(pushed: seq<SensorMessage>, k: nat)
    ensures forall j: nat :: multiset(pushed + [MessageOf(k)])[MessageOf(j)] == multiset(pushed)[MessageOf(j)] + if j == k then 1 else 0
  {
    assert forall j: nat :: MessageOf(j) == MessageOf(k) ==> j == k;
  }

  lemma PushesKept(s: State, a: Action, n: nat)
    requires RingOk(s.ring) && PushesAccounted(s) && Enabled(s, a)
    ensures PushesAccounted(Step(s, a, n))
  {
    match a
    case PushStep(p, wake) => PushAccounted(s, p, wake, n);
    case _ =>
      hide RingOk, Popped, MessageOf;
      var s' := Step(s, a, n);
      assert s'.pushed == s.pushed;
      NobodyPasses(s, s');
  }

  lemma ProducerEndsKept(s: State, a: Action, n: nat)
    requires RingOk(s.ring) && ProducerEnds(s, n) && Enabled(s, a)
    ensures ProducerEnds(Step(s, a, n), n)
  {
    hide RingOk;
  }

  // ---- Consumers ----

  function PoppedBy(c: Consumer): nat {
    (if c.expected >= 1 then c.expected - 1 else 0) + if c.failed then 1 else 0
  }

  function PoppedCounts(consumers: map<Tid, Consumer>): map<Tid, nat> {
    map c | c in consumers :: PoppedBy(consumers[c])
  }

  /** Every message popped is one that a consumer counted, or the one that failed its check. */
  ghost predicate PopsAccounted(s: State) {
    && (forall c :: c in s.consumers ==> s.consumers[c].expected >= 1)
    && Sum(PoppedCounts(s.consumers)) == |s.popped|
  }

  ghost predicate ConsumerEnds(s: State) {
    forall c :: c in s.consumers ==>
      var me := s.consumers[c];
      && (me.phase == Working ==> !me.failed && me.received == 0)
      && (me.failed ==> me.received == 0)
      && (me.phase == Closing ==> me.failed)
      && (me.phase == Finished && !me.failed ==> me.received == me.expected - 1 && s.ring.count == 0)
      && (me.phase == Finished ==> s.ring.closed)
  }

  lemma CountChanges(consumers: map<Tid, Consumer>, c: Tid, x: Consumer)
    requires c in consumers
    ensures Sum(PoppedCounts(consumers[c := x])) + PoppedBy(consumers[c]) == Sum(PoppedCounts(consumers)) + PoppedBy(x)
  {
    hide PoppedBy;
    SumChanges(PoppedCounts(consumers), c, PoppedBy(x));
    assert PoppedCounts(consumers[c := x]) == PoppedCounts(consumers)[c := PoppedBy(x)];
  }

  lemma PopsKept(s: State, a: Action, n: nat)
    requires RingOk(s.ring) && PopsAccounted(s) && ConsumerEnds(s) && Enabled(s, a)
    ensures PopsAccounted(Step(s, a, n))
  {
    hide Sum, PoppedCounts, Popped, Pushed;
    var s' := Step(s, a, n);
    match a
    case PopStep(c, wake) => CountChanges(s.consumers, c, s'.consumers[c]);
    case ConsumerCloses(c) => CountChanges(s.consumers, c, s'.consumers[c]);
    case _ =>
  }

  lemma ConsumerEndsKept(s: State, a: Action, n: nat)
    requires RingOk(s.ring) && ConsumerEnds(s) && Enabled(s, a)
    ensures ConsumerEnds(Step(s, a, n))
  {
    hide RingOk;
  }

  // ---- Runs ----

  ghost predicate Accounts(s: State, n: nat) {
    PushesAccounted(s) && ProducerEnds(s, n) && PopsAccounted(s) && ConsumerEnds(s)
  }

  lemma InitAccounts(n: nat, producers: set<Tid>, consumers: set<Tid>)
    ensures Accounts(Init(n, producers, consumers), n)
  {
    var s := Init(n, producers, consumers);
    forall j: nat | j >= 1 ensures Past(s, j) == {} {}
    SumAtMost(PoppedCounts(s.consumers), 0);
  }

  lemma {:induction false} RunAccounts(states: seq<State>, actions: seq<Action>, n: nat, producers: set<Tid>, consumers: set<Tid>, i: nat)
    requires Run(states, actions, n, producers, consumers) && i < |states|
    ensures Accounts(states[i], n)
  {
    hide Step, Enabled, RingOk, PushesAccounted, ProducerEnds, PopsAccounted, ConsumerEnds;
    if i == 0 {
      InitAccounts(n, producers, consumers);
    } else {
      RunAccounts(states, actions, n, producers, consumers, i - 1);
      assert states[i - 1 + 1] == Step(states[i - 1], actions[i - 1], n);
      PushesKept(states[i - 1], actions[i - 1], n);
      ProducerEndsKept(states[i - 1], actions[i - 1], n);
      PopsKept(states[i - 1], actions[i - 1], n);
      ConsumerEndsKept(states[i - 1], actions[i - 1], n);
    }
  }

  /** For any number of threads: message `j` was pushed once by every producer that is past it, with
      the readings that belong to it, and the messages popped are those the consumers counted plus
      one for each consumer that found its message out of order. */
  lemma MessagesAreAccountedFor(states: seq<State>, actions: seq<Action>, n: nat, producers: set<Tid>, consumers: set<Tid>, i: nat, j: nat)
    requires Run(states, actions, n, producers, consumers) && i < |states| && j >= 1
    ensures multiset(states[i].pushed)[SensorMessage(j, 250 + j % 10, 600 + j % 10)] == |Past(states[i], j)|
    ensures Sum(PoppedCounts(states[i].consumers)) == |states[i].popped|
  {
    hide Run, ProducerEnds, ConsumerEnds, Sum;
    RunAccounts(states, actions, n, producers, consumers, i);
    assert MessageOf(j) == SensorMessage(j, 250 + j % 10, 600 + j % 10);
  }

  /** Why threads end. A producer fails only at a closed queue and before its last message, and
      otherwise ends having pushed all n. A consumer that did not fail has returned from a closed and
      empty queue with the number of messages it popped. */
  lemma EndsAreExplained(states: seq<State>, actions: seq<Action>, n: nat, producers: set<Tid>, consumers: set<Tid>, i: nat)
    requires Run(states, actions, n, producers, consumers) && i < |states|
    ensures forall p :: p in states[i].producers && states[i].producers[p].phase != Working ==>
      if states[i].producers[p].failed then states[i].ring.closed && states[i].producers[p].sequence <= n
      else states[i].producers[p].sequence == n + 1
    ensures forall c :: c in states[i].consumers && states[i].consumers[c].phase == Finished && !states[i].consumers[c].failed ==>
      states[i].ring.closed && states[i].ring.count == 0 && states[i].consumers[c].received == states[i].consumers[c].expected - 1
  {
    hide Run, PushesAccounted, PopsAccounted;
    RunAccounts(states, actions, n, producers, consumers, i);
  }

  /** After closing nothing is pushed any more, and the queue stays closed. */
  lemma {:induction false} ClosedIsFinal(states: seq<State>, actions: seq<Action>, n: nat, producers: set<Tid>, consumers: set<Tid>, i: nat, j: nat)
    requires Run(states, actions, n, producers, consumers) && i <= j < |states| && states[i].ring.closed
    ensures states[j].ring.closed && states[j].pushed == states[i].pushed
    decreases j
  {
    hide Step, Enabled, RingOk;
    if i < j {
      ClosedIsFinal(states, actions, n, producers, consumers, i, j - 1);
      assert states[j - 1 + 1] == Step(states[j - 1], actions[j - 1], n);
      ClosedStep(states[j - 1], actions[j - 1], n);
    }
  }

  lemma ClosedStep(s: State, a: Action, n: nat)
    requires RingOk(s.ring) && Enabled(s, a) && s.ring.closed
    ensures Step(s, a, n).ring.closed && Step(s, a, n).pushed == s.pushed
  {
    hide RingOk;
  }

  // ---- Every push and every pop ----

  /** How far the pushes are ahead of the pops, and which message is next. */
  lemma Backlog(s: State)
    requires Fifo(s)
    ensures s.ring.count == |s.pushed| - |s.popped| <= 4
    ensures s.ring.count > 0 ==> s.ring.head < |s.ring.items| && s.ring.items[s.ring.head] == s.pushed[|s.popped|]
  {
    hide Contents;
    ContentsSize(s.ring);
  }

  /** What a push does, told by the history: it fails at a closed queue, sleeps when the pushes are
      four messages ahead, and otherwise adds the producer's next message and wakes a sleeper. */
  lemma PushOutcome(states: seq<State>, actions: seq<Action>, n: nat, producers: set<Tid>, consumers: set<Tid>, i: nat)
    requires Run(states, actions, n, producers, consumers) && i < |actions| && actions[i].PushStep?
    ensures var s, s', p := states[i], states[i + 1], actions[i].p;
      && p in s.producers && p in s'.producers && |s.pushed| - |s.popped| <= 4 && s'.popped == s.popped
      && var k := s.producers[p].sequence;
         if s.ring.closed then s'.pushed == s.pushed && s'.producers[p] == Producer(k, Closing, true)
         else if |s.pushed| - |s.popped| == 4 then s'.pushed == s.pushed && s'.producers == s.producers && p in s'.sleepingProducers
         else
           && s'.pushed == s.pushed + [SensorMessage(k, 250 + k % 10, 600 + k % 10)]
           && s'.producers[p] == Producer(k + 1, if k < n then Working else Closing, false)
           && (s.sleepingConsumers != {} ==> s'.sleepingConsumers < s.sleepingConsumers)
  {
    RunInv(states, actions, n, producers, consumers, i);
    RunAccounts(states, actions, n, producers, consumers, i);
    Backlog(states[i]);
    var a := actions[i];
    assert Enabled(states[i], a) && states[i + 1] == Push(states[i], a.p, a.wake, n);
    hide Run, Fifo, Inv, PushesAccounted, PopsAccounted, ConsumerEnds, RingOk, Pushed;
  }

  /** What a pop does, told by the history: with nothing left it sleeps or, at a closed queue,
      returns its count; otherwise it takes the oldest message not popped yet and checks its number. */
  lemma PopOutcome(states: seq<State>, actions: seq<Action>, n: nat, producers: set<Tid>, consumers: set<Tid>, i: nat)
    requires Run(states, actions, n, producers, consumers) && i < |actions| && actions[i].PopStep?
    ensures var s, s', c := states[i], states[i + 1], actions[i].c;
      && c in s.consumers && c in s'.consumers && |s.popped| <= |s.pushed| && s'.pushed == s.pushed
      && var k := s.consumers[c].expected;
         if |s.popped| == |s.pushed| then
           && s'.popped == s.popped
           && (if s.ring.closed then k >= 1 && s'.consumers[c] == Consumer(k, Finished, false, k - 1)
               else s'.consumers == s.consumers && c in s'.sleepingConsumers)
         else
           var m := s.pushed[|s.popped|];
           && s'.popped == s.popped + [m]
           && s'.consumers[c] == (if m.sequence == k then Consumer(k + 1, Working, false, 0) else Consumer(k, Closing, true, 0))
           && (s.sleepingProducers != {} ==> s'.sleepingProducers < s.sleepingProducers)
  {
    RunInv(states, actions, n, producers, consumers, i);
    RunAccounts(states, actions, n, producers, consumers, i);
    Backlog(states[i]);
    var a := actions[i];
    assert Enabled(states[i], a) && states[i + 1] == Pop(states[i], a.c, a.wake);
    hide Run, Fifo, Inv, PushesAccounted, ProducerEnds, RingOk, Popped, Sum;
  }
}

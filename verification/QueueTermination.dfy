/** Producers and consumers come to an end: how many steps any run can take, and what holds when no
    thread can take another one. */
module QueueTermination {
  import opened Basics
  import opened BoundedQueues
  import opened QueueThreads

  // ---- Sums over threads ----

  ghost function Pick(w: map<Tid, nat>): (k: Tid)
    requires w != map[]
    ensures k in w
  {
    var k :| k in w; k
  }

  ghost function Sum(w: map<Tid, nat>): nat
    decreases |w|
  {
    if w == map[] then 0 else w[Pick(w)] + Sum(w - {Pick(w)})
  }

  lemma {:induction false} SumSplit(w: map<Tid, nat>, k: Tid)
    requires k in w
    ensures Sum(w) == w[k] + Sum(w - {k})
    decreases |w|
  {
    var j := Pick(w);
    if j != k {
      SumSplit(w - {j}, k);
      SumSplit(w - {k}, j);
      assert (w - {j}) - {k} == (w - {k}) - {j};
    }
  }

  lemma SumChanges(w: map<Tid, nat>, k: Tid, x: nat)
    requires k in w
    ensures Sum(w[k := x]) + w[k] == Sum(w) + x
  {
    SumSplit(w, k);
    SumSplit(w[k := x], k);
    assert w[k := x] - {k} == w - {k};
  }

  lemma {:induction false} SumAtMost(w: map<Tid, nat>, limit: nat)
    requires forall k :: k in w ==> w[k] <= limit
    ensures Sum(w) <= limit * |w|
    decreases |w|
  {
    if w != map[] {
      SumAtMost(w - {Pick(w)}, limit);
      SmallerMap(w, Pick(w));
      assert limit * (|w| - 1) + limit == limit * |w|;
    }
  }

  lemma SmallerMap(w: map<Tid, nat>, k: Tid)
    requires k in w
    ensures |w - {k}| == |w| - 1
  {
    assert w == (w - {k})[k := w[k]];
  }

  // ---- The measure ----

  function PhasesLeft(phase: Phase): nat {
    match phase
    case Working => 2
    case Closing => 1
    case Finished => 0
  }

  /** A message still to be pushed is moved twice, once into the ring and once out of it. */
  function ProducerWork(p: Producer, n: nat): nat {
    (if p.sequence <= n then 2 * (n + 1 - p.sequence) else 0) + PhasesLeft(p.phase)
  }

  function ProducerWorks(producers: map<Tid, Producer>, n: nat): map<Tid, nat> {
    map p | p in producers :: ProducerWork(producers[p], n)
  }

  function ConsumerWorks(consumers: map<Tid, Consumer>): map<Tid, nat> {
    map c | c in consumers :: PhasesLeft(consumers[c].phase)
  }

  ghost function Work(s: State, n: nat): nat {
    Sum(ProducerWorks(s.producers, n)) + Sum(ConsumerWorks(s.consumers)) + s.ring.count
  }

  function Awake(s: State): nat {
    |s.producers.Keys - s.sleepingProducers| + |s.consumers.Keys - s.sleepingConsumers|
  }

  function Threads(s: State): nat {
    |s.producers.Keys| + |s.consumers.Keys|
  }

  /** Work comes first; while it stays the same, threads fall asleep. */
  ghost function Measure(s: State, n: nat): nat {
    Ranked(Work(s, n), Threads(s), Awake(s))
  }

  function Ranked(work: nat, threads: nat, awake: nat): nat {
    work * (threads + 1) + awake
  }

  predicate Spurious(a: Action) {
    a.SpuriousProducer? || a.SpuriousConsumer?
  }

  ghost predicate InRange(s: State, n: nat) {
    forall p :: p in s.producers && s.producers[p].phase == Working ==> s.producers[p].sequence <= n
  }

  lemma InRangeKept(s: State, a: Action, n: nat)
    requires RingOk(s.ring) && InRange(s, n) && Enabled(s, a)
    ensures InRange(Step(s, a, n), n)
  {
    hide RingOk, Pushed, Popped;
  }

  lemma ProducerChanges(producers: map<Tid, Producer>, p: Tid, x: Producer, n: nat)
    requires p in producers
    ensures Sum(ProducerWorks(producers[p := x], n)) + ProducerWork(producers[p], n)
         == Sum(ProducerWorks(producers, n)) + ProducerWork(x, n)
  {
    hide ProducerWork;
    SumChanges(ProducerWorks(producers, n), p, ProducerWork(x, n));
    assert ProducerWorks(producers[p := x], n) == ProducerWorks(producers, n)[p := ProducerWork(x, n)];
  }

  lemma ConsumerChanges(consumers: map<Tid, Consumer>, c: Tid, x: Consumer)
    requires c in consumers
    ensures Sum(ConsumerWorks(consumers[c := x])) + PhasesLeft(consumers[c].phase)
         == Sum(ConsumerWorks(consumers)) + PhasesLeft(x.phase)
  {
    SumChanges(ConsumerWorks(consumers), c, PhasesLeft(x.phase));
    assert ConsumerWorks(consumers[c := x]) == ConsumerWorks(consumers)[c := PhasesLeft(x.phase)];
  }

  /** The step of a thread either does work or puts that thread to sleep. */
  ghost predicate Advances(s: State, s': State, n: nat) {
    Work(s', n) < Work(s, n) || (Work(s', n) == Work(s, n) && Awake(s') == Awake(s) - 1)
  }

  lemma PushAdvances(s: State, p: Tid, wake: Option<Tid>, n: nat)
    requires RingOk(s.ring) && InRange(s, n) && Enabled(s, PushStep(p, wake))
    ensures Advances(s, Push(s, p, wake, n), n)
  {
    hide Sum, ProducerWorks, ConsumerWorks;
    var s' := Push(s, p, wake, n);
    if s.ring.count == CAPACITY && !s.ring.closed {
      FallsAsleep(s.producers.Keys, s.sleepingProducers, p);
    } else {
      ProducerChanges(s.producers, p, s'.producers[p], n);
      assert s'.producers == s.producers[p := s'.producers[p]];
    }
  }

  lemma PopAdvances(s: State, c: Tid, wake: Option<Tid>, n: nat)
    requires RingOk(s.ring) && Enabled(s, PopStep(c, wake))
    ensures Advances(s, Pop(s, c, wake), n)
  {
    hide Sum, ProducerWorks, ConsumerWorks;
    var s' := Pop(s, c, wake);
    if s.ring.count == 0 && !s.ring.closed {
      FallsAsleep(s.consumers.Keys, s.sleepingConsumers, c);
    } else {
      ConsumerChanges(s.consumers, c, s'.consumers[c]);
      assert s'.consumers == s.consumers[c := s'.consumers[c]];
    }
  }

  lemma FallsAsleep(threads: set<Tid>, sleeping: set<Tid>, t: Tid)
    requires t in threads && t !in sleeping
    ensures |threads - (sleeping + {t})| == |threads - sleeping| - 1
  {
    assert threads - (sleeping + {t}) == (threads - sleeping) - {t};
  }

  lemma WakesUp(threads: set<Tid>, sleeping: set<Tid>, t: Tid)
    requires t in threads && t in sleeping
    ensures |threads - (sleeping - {t})| == |threads - sleeping| + 1
  {
    assert threads - (sleeping - {t}) == (threads - sleeping) + {t};
  }

  lemma CloseAdvances(s: State, a: Action, n: nat)
    requires RingOk(s.ring) && Enabled(s, a) && (a.ProducerCloses? || a.ConsumerCloses?)
    ensures Advances(s, Step(s, a, n), n)
  {
    hide Sum, ProducerWorks, ConsumerWorks, RingOk, Push, Pop;
    match a
    case ProducerCloses(p) => ProducerChanges(s.producers, p, s.producers[p].(phase := Finished), n);
    case ConsumerCloses(c) => ConsumerChanges(s.consumers, c, s.consumers[c].(phase := Finished));
    case _ =>
  }

  /** Every step of a thread lowers the measure; a spurious wakeup raises it by one. */
  lemma MeasureStep(s: State, a: Action, n: nat)
    requires Inv(s) && InRange(s, n) && Enabled(s, a)
    ensures Spurious(a) ==> Measure(Step(s, a, n), n) == Measure(s, n) + 1
    ensures !Spurious(a) ==> Measure(Step(s, a, n), n) < Measure(s, n)
  {
    hide Work, Awake, InRange, RingOk, Contents, NoLostWakeup, FinishedMeansClosed, Ranked, Step, Enabled, SetsOk;
    var s' := Step(s, a, n);
    SameThreads(s, a, n);
    AwakeBound(s');
    RankedBy(Work(s, n), Threads(s), Awake(s));
    RankedBy(Work(s', n), Threads(s), Awake(s'));
    if Spurious(a) {
      SpuriousStep(s, a, n);
    } else {
      ThreadStep(s, a, n);
      LessWork(Work(s', n), Work(s, n), Threads(s), Awake(s'));
    }
  }

  lemma ThreadStep(s: State, a: Action, n: nat)
    requires RingOk(s.ring) && InRange(s, n) && Enabled(s, a) && !Spurious(a)
    ensures Advances(s, Step(s, a, n), n)
  {
    hide Advances, RingOk;
    match a
    case PushStep(p, wake) => PushAdvances(s, p, wake, n);
    case PopStep(c, wake) => PopAdvances(s, c, wake, n);
    case _ => CloseAdvances(s, a, n);
  }

  lemma SpuriousStep(s: State, a: Action, n: nat)
    requires SetsOk(s) && RingOk(s.ring) && Enabled(s, a) && Spurious(a)
    ensures Work(Step(s, a, n), n) == Work(s, n) && Awake(Step(s, a, n)) == Awake(s) + 1
  {
    hide Work, RingOk, Push, Pop, Close;
    SameWork(s, Step(s, a, n), n);
    match a
    case SpuriousProducer(p) => WakesUp(s.producers.Keys, s.sleepingProducers, p);
    case SpuriousConsumer(c) => WakesUp(s.consumers.Keys, s.sleepingConsumers, c);
    case _ =>
  }

  lemma SameWork(s: State, s': State, n: nat)
    ensures s'.producers == s.producers && s'.consumers == s.consumers && s'.ring == s.ring ==> Work(s', n) == Work(s, n)
  {
    hide Sum, ProducerWorks, ConsumerWorks;
  }

  lemma AwakeBound(s: State)
    ensures Awake(s) <= Threads(s)
  {
    Fewer(s.producers.Keys, s.sleepingProducers);
    Fewer(s.consumers.Keys, s.sleepingConsumers);
  }

  lemma Fewer(threads: set<Tid>, sleeping: set<Tid>)
    ensures |threads - sleeping| <= |threads|
  {
    assert threads == (threads - sleeping) + (threads * sleeping);
  }

  lemma RankedBy(work: nat, threads: nat, awake: nat)
    ensures Ranked(work, threads, awake) == Ranked(work, threads, 0) + awake
  {
  }

  lemma LessWork(less: nat, work: nat, threads: nat, awake: nat)
    requires awake <= threads
    ensures less < work ==> Ranked(less, threads, awake) < Ranked(work, threads, 0)
  {
    if less < work {
      assert (less + 1) * (threads + 1) <= work * (threads + 1);
    }
  }

  // ---- Runs ----

  function SpuriousCount(actions: seq<Action>): nat {
    if actions == [] then 0
    else SpuriousCount(actions[..|actions| - 1]) + if Spurious(actions[|actions| - 1]) then 1 else 0
  }

  function MostWork(n: nat, producers: nat, consumers: nat): nat {
    (2 * n + 2) * producers + 2 * consumers
  }

  function MostSteps(n: nat, producers: nat, consumers: nat): nat {
    Ranked(MostWork(n, producers, consumers), producers + consumers, producers + consumers)
  }

  lemma InitMeasure(n: nat, producers: set<Tid>, consumers: set<Tid>)
    ensures InRange(Init(n, producers, consumers), n)
    ensures Measure(Init(n, producers, consumers), n) <= MostSteps(n, |producers|, |consumers|)
  {
    InitThreads(n, producers, consumers);
    InitWork(n, producers, consumers);
    hide Work, Awake, MostWork, Ranked;
    var s := Init(n, producers, consumers);
    AwakeBound(s);
    MoreWork(Work(s, n), MostWork(n, |producers|, |consumers|), Threads(s), Awake(s));
  }

  lemma InitWork(n: nat, producers: set<Tid>, consumers: set<Tid>)
    ensures Work(Init(n, producers, consumers), n) <= MostWork(n, |producers|, |consumers|)
  {
    hide Sum;
    var s := Init(n, producers, consumers);
    var ps, cs := ProducerWorks(s.producers, n), ConsumerWorks(s.consumers);
    assert ps.Keys == producers && cs.Keys == consumers;
    SumAtMost(ps, 2 * n + 2);
    SumAtMost(cs, 2);
    assert |ps| == |ps.Keys| && |cs| == |cs.Keys|;
  }

  lemma MoreWork(a: nat, b: nat, threads: nat, awake: nat)
    requires a <= b && awake <= threads
    ensures Ranked(a, threads, awake) <= Ranked(b, threads, threads)
  {
    assert a * (threads + 1) <= b * (threads + 1);
  }

  lemma {:induction false} RunMeasure(states: seq<State>, actions: seq<Action>, n: nat, producers: set<Tid>, consumers: set<Tid>, i: nat)
    requires Run(states, actions, n, producers, consumers) && i < |states|
    ensures InRange(states[i], n)
    ensures Measure(states[i], n) + i <= MostSteps(n, |producers|, |consumers|) + 2 * SpuriousCount(actions[..i])
  {
    hide Step, Enabled, Inv, RingOk, InRange, Measure, MostSteps;
    if i == 0 {
      InitMeasure(n, producers, consumers);
    } else {
      RunMeasure(states, actions, n, producers, consumers, i - 1);
      RunInv(states, actions, n, producers, consumers, i - 1);
      assert states[i - 1 + 1] == Step(states[i - 1], actions[i - 1], n);
      InRangeKept(states[i - 1], actions[i - 1], n);
      MeasureStep(states[i - 1], actions[i - 1], n);
      assert actions[..i][..i - 1] == actions[..i - 1];
    }
  }

  /** No thread goes round forever: for any number of producers and consumers, every run without
      spurious wakeups is at most `MostSteps` long, and each spurious wakeup adds at most two steps. */
  lemma RunsAreBounded(states: seq<State>, actions: seq<Action>, n: nat, producers: set<Tid>, consumers: set<Tid>)
    requires Run(states, actions, n, producers, consumers)
    ensures |actions| <= MostSteps(n, |producers|, |consumers|) + 2 * SpuriousCount(actions)
  {
    hide Run, Measure, MostSteps;
    RunLength(states, actions, n, producers, consumers);
    RunMeasure(states, actions, n, producers, consumers, |actions|);
    assert actions[..|actions|] == actions;
  }

  lemma RunLength(states: seq<State>, actions: seq<Action>, n: nat, producers: set<Tid>, consumers: set<Tid>)
    requires Run(states, actions, n, producers, consumers)
    ensures |states| == |actions| + 1
  {
  }

  /** Nothing can happen any more except a spurious wakeup. */
  ghost predicate AtRest(s: State) {
    forall a :: Enabled(s, a) ==> Spurious(a)
  }

  /** Whoever runs until nothing can happen any more has finished every thread, and nobody sleeps. */
  lemma RestMeansFinished(states: seq<State>, actions: seq<Action>, n: nat, producers: set<Tid>, consumers: set<Tid>, i: nat)
    requires Run(states, actions, n, producers, consumers) && i < |states|
    requires producers != {} && consumers != {} && AtRest(states[i])
    ensures states[i].producers.Keys == producers && states[i].consumers.Keys == consumers
    ensures forall p :: p in producers ==> states[i].producers[p].phase == Finished
    ensures forall c :: c in consumers ==> states[i].consumers[c].phase == Finished
    ensures states[i].ring.closed && states[i].sleepingProducers == {} && states[i].sleepingConsumers == {}
  {
    hide Run, Enabled, Fifo, NoLostWakeup;
    RunInv(states, actions, n, producers, consumers, i);
    if Unfinished(states[i]) {
      NeverStuck(states, actions, n, producers, consumers, i);
    }
    var p :| p in producers;
    assert states[i].producers[p].phase == Finished;
  }

  /** Total correctness with one thread on each side: whatever the interleaving, the run ends, and
      then the consumer has received exactly 1 to n without a failed check. */
  lemma SoloRunDelivers(states: seq<State>, actions: seq<Action>, n: nat, p: Tid, c: Tid)
    requires Run(states, actions, n, {p}, {c}) && AtRest(states[|actions|])
    ensures var s := states[|actions|];
      && s.popped == Messages(n) && s.ring.count == 0 && s.ring.closed
      && c in s.consumers && s.consumers[c].phase == Finished && !s.consumers[c].failed && s.consumers[c].received == n
      && p in s.producers && s.producers[p] == Producer(n + 1, Finished, false)
  {
    hide Run, AtRest, Messages;
    RunLength(states, actions, n, {p}, {c});
    RestMeansFinished(states, actions, n, {p}, {c}, |actions|);
    ConsumerReceivesAll(states, actions, n, p, c, |actions|);
  }
}

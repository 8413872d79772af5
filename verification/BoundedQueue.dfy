/** The ring buffer under the queue's mutex. */
module BoundedQueues {

  const CAPACITY: nat := 4

  datatype SensorMessage = SensorMessage(sequence: nat, tempX10: nat, humiX10: nat)

  datatype Ring = Ring(items: seq<SensorMessage>, head: nat, tail: nat, count: nat, closed: bool)

  function Slot(k: nat): (s: nat)
    ensures s < CAPACITY
  {
    k % CAPACITY
  }

  /** Walking on from a slot is walking on. */
  lemma SlotWalks(head: nat, i: nat)
    ensures Slot(Slot(head) + i) == Slot(head + i)
    ensures head < CAPACITY ==> Slot(head) == head
  {
  }

  /** Fewer than `CAPACITY` slots in a row never meet. */
  lemma SlotsDiffer(a: nat, b: nat)
    requires a < b < a + CAPACITY
    ensures Slot(a) != Slot(b)
  {
  }

  predicate RingOk(r: Ring) {
    && |r.items| == CAPACITY && r.head < CAPACITY && r.count <= CAPACITY
    && r.tail == Slot(r.head + r.count)
  }

  /** The messages in the ring, oldest first. */
  function Contents(r: Ring): (s: seq<SensorMessage>)
    requires RingOk(r)
    ensures |s| == r.count
  {
    seq(r.count, i requires 0 <= i < r.count => r.items[Slot(r.head + i)])
  }

  datatype Outcome<T> = MustWait | Closed | Done(value: T)

  function Pushed(r: Ring, m: SensorMessage): Ring
    requires RingOk(r) && r.count < CAPACITY
  {
    r.(items := r.items[r.tail := m], tail := Slot(r.tail + 1), count := r.count + 1)
  }

  function Popped(r: Ring): Ring
    requires RingOk(r) && r.count > 0
  {
    r.(head := Slot(r.head + 1), count := r.count - 1)
  }

  lemma PushedAppends(r: Ring, m: SensorMessage)
    requires RingOk(r) && r.count < CAPACITY
    ensures RingOk(Pushed(r, m)) && Contents(Pushed(r, m)) == Contents(r) + [m]
  {
    hide Slot;
    var r' := Pushed(r, m);
    SlotWalks(r.head + r.count, 1);
    SlotWalks(r.head, r.count);
    forall i | 0 <= i < r.count
      ensures Contents(r')[i] == Contents(r)[i]
    {
      SlotsDiffer(r.head + i, r.head + r.count);
    }
  }

  lemma PoppedRemoves(r: Ring)
    requires RingOk(r) && r.count > 0
    ensures RingOk(Popped(r)) && Contents(r) == [r.items[r.head]] + Contents(Popped(r))
  {
    hide Slot;
    var r' := Popped(r);
    SlotWalks(r.head + 1, r'.count);
    SlotWalks(r.head, 0);
    assert Contents(r)[0] == r.items[r.head];
    forall i | 0 <= i < r'.count
      ensures Contents(r')[i] == Contents(r)[i + 1]
    {
      SlotWalks(r.head + 1, i);
    }
  }

  /** `BoundedQueue` with the mutex held: each method is what runs between taking the lock and
      either releasing it or going to sleep on a condition variable. */
  class BoundedQueue {
    const items: array<SensorMessage>
    var head: nat
    var tail: nat
    var count: nat
    var closed: bool

    ghost function Model(): Ring
      reads this, items
    {
      Ring(items[..], head, tail, count, closed)
    }

    ghost predicate Valid()
      reads this, items
    {
      RingOk(Model())
    }

    constructor ()
      ensures Valid() && fresh(items) && Contents(Model()) == [] && !closed
    {
      items := new SensorMessage[CAPACITY](_ => SensorMessage(0, 0, 0));
      head, tail, count, closed := 0, 0, 0, false;
    }

    method Push(message: SensorMessage) returns (outcome: Outcome<()>)
      requires Valid()
      modifies this, items
      ensures Valid() && closed == old(closed)
      ensures outcome == (if closed then Closed else if old(count) == CAPACITY then MustWait else Done(()))
      ensures Contents(Model()) == old(Contents(Model())) + if outcome.Done? then [message] else []
      ensures outcome.Done? ==> Model() == Pushed(old(Model()), message)
      ensures !outcome.Done? ==> Model() == old(Model())
    {
      if count == CAPACITY && !closed {
        return MustWait;
      }
      if closed {
        return Closed;
      }
      PushedAppends(Model(), message);
      items[tail] := message;
      tail := (tail + 1) % CAPACITY;
      count := count + 1;
      return Done(());
    }

    /** A closed queue is drained before it reports closed. */
    method Pop() returns (outcome: Outcome<SensorMessage>)
      requires Valid()
      modifies this
      ensures Valid() && closed == old(closed)
      ensures old(count) > 0 ==> outcome.Done?
      ensures old(count) == 0 ==> outcome == (if closed then Closed else MustWait)
      ensures old(Contents(Model())) == (if outcome.Done? then [outcome.value] else []) + Contents(Model())
      ensures outcome.Done? ==> Model() == Popped(old(Model())) && outcome.value == old(Model().items[head])
      ensures !outcome.Done? ==> Model() == old(Model())
    {
      if count == 0 && !closed {
        return MustWait;
      }
      if count == 0 && closed {
        return Closed;
      }
      PoppedRemoves(Model());
      outcome := Done(items[head]);
      head := (head + 1) % CAPACITY;
      count := count - 1;
    }

    method Close()
      requires Valid()
      modifies this
      ensures Valid() && Model() == old(Model()).(closed := true)
    {
      closed := true;
    }
  }
}

/** The single-producer single-consumer queue as interleaved atomic steps, and the class whose
    operations are such steps. */
module SpscQueue {
  import opened Words
  import opened RingSlots

  /** Where try_push stands: nothing loaded, the tail loaded, the head loaded and room found, or the
      slot written and not yet published. */
  datatype Producer<T> = Ready | HasTail(value: T, tail: U64) | MayWrite(value: T, tail: U64) | Wrote(value: T, tail: U64)

  /** Where try_pop stands: nothing loaded, the head loaded, the tail loaded and an element found, or
      the slot copied and not yet released. */
  datatype Consumer<T> = Idle | HasHead(head: U64) | MayRead(head: U64) | Copied(value: T, head: U64)

  /** The shared memory, the two threads, and the history of published pushes and pops. */
  datatype Queue<T> = Queue(slots: seq<T>, head: U64, tail: U64, producer: Producer<T>, consumer: Consumer<T>,
                            pushed: seq<T>, popped: seq<T>)

  datatype Move<T> = LoadTail(value: T) | CheckRoom | WriteSlot | PublishTail
                   | LoadHead | CheckElement | CopySlot | PublishHead

  predicate SeesFull(cap: nat, q: Queue, tail: U64) { Low64(tail - q.head) >= cap }

  predicate SeesEmpty(q: Queue, head: U64) { head == q.tail }

  /** One atomic step; a step the thread is not at changes nothing. */
  function Moved<T>(cap: nat, q: Queue<T>, m: Move<T>): (q': Queue<T>)
    requires 0 < cap == |q.slots|
    ensures |q'.slots| == cap
  {
    match m
    case LoadTail(v) => if q.producer.Ready? then q.(producer := HasTail(v, q.tail)) else q
    case CheckRoom =>
      if !q.producer.HasTail? then q
      else if SeesFull(cap, q, q.producer.tail) then q.(producer := Ready)
      else q.(producer := MayWrite(q.producer.value, q.producer.tail))
    case WriteSlot =>
      if !q.producer.MayWrite? then q
      else q.(slots := q.slots[q.producer.tail % cap := q.producer.value],
              producer := Wrote(q.producer.value, q.producer.tail))
    case PublishTail =>
      if !q.producer.Wrote? then q
      else q.(tail := Low64(q.producer.tail + 1), producer := Ready, pushed := q.pushed + [q.producer.value])
    case LoadHead => if q.consumer.Idle? then q.(consumer := HasHead(q.head)) else q
    case CheckElement =>
      if !q.consumer.HasHead? then q
      else if SeesEmpty(q, q.consumer.head) then q.(consumer := Idle)
      else q.(consumer := MayRead(q.consumer.head))
    case CopySlot =>
      if !q.consumer.MayRead? then q
      else q.(consumer := Copied(q.slots[q.consumer.head % cap], q.consumer.head))
    case PublishHead =>
      if !q.consumer.Copied? then q
      else q.(head := Low64(q.consumer.head + 1), consumer := Idle, popped := q.popped + [q.consumer.value])
  }

  function Interleaved<T>(cap: nat, q: Queue<T>, moves: seq<Move<T>>): (q': Queue<T>)
    requires 0 < cap == |q.slots|
    ensures |q'.slots| == cap
    decreases |moves|
  {
    if moves == [] then q else Interleaved(cap, Moved(cap, q, moves[0]), moves[1..])
  }

  // ---- the invariant ----

  ghost predicate Counters<T>(cap: nat, q: Queue<T>)
  {
    && Capacity(cap) && 0 < cap == |q.slots|
    && |q.popped| <= |q.pushed| <= |q.popped| + cap
    && q.tail == Low64(|q.pushed|) && q.head == Low64(|q.popped|)
  }

  ghost predicate ProducerSound<T>(cap: nat, q: Queue<T>)
    requires 0 < cap == |q.slots|
  {
    match q.producer
    case Ready => true
    case HasTail(_, t) => t == q.tail
    case MayWrite(_, t) => t == q.tail && |q.pushed| < |q.popped| + cap
    case Wrote(v, t) => t == q.tail && |q.pushed| < |q.popped| + cap && q.slots[|q.pushed| % cap] == v
  }

  ghost predicate ConsumerSound<T>(q: Queue<T>)
  {
    match q.consumer
    case Idle => true
    case HasHead(h) => h == q.head
    case MayRead(h) => h == q.head && |q.popped| < |q.pushed|
    case Copied(v, h) => h == q.head && |q.popped| < |q.pushed| && v == q.pushed[|q.popped|]
  }

  ghost predicate Sound<T>(cap: nat, q: Queue<T>)
  {
    && Counters(cap, q)
    && q.popped <= q.pushed
    && Holds(cap, q.slots, q.pushed, |q.popped|, |q.pushed|)
    && ProducerSound(cap, q)
    && ConsumerSound(q)
  }

  ghost predicate Empty<T>(cap: nat, q: Queue<T>)
  {
    && Capacity(cap) && 0 < cap == |q.slots|
    && q == Queue(q.slots, 0, 0, Ready, Idle, [], [])
  }

  lemma ProducerKeepsSound<T>(cap: nat, q: Queue<T>, m: Move<T>)
    requires Sound(cap, q) && (m.LoadTail? || m.CheckRoom? || m.WriteSlot? || m.PublishTail?)
    ensures Sound(cap, Moved(cap, q, m))
  {
    hide Capacity, Low64;
    var n := |q.pushed|;
    MaskWrapped(cap, n);
    WrappedDifference(n, |q.popped|);
    if m.WriteSlot? && q.producer.MayWrite? {
      WriteKeeps(cap, q.slots, q.pushed, |q.popped|, n, n, q.producer.value);
    }
    if m.PublishTail? && q.producer.Wrote? {
      WrappedSum(n, 1);
    }
  }

  lemma ConsumerKeepsSound<T>(cap: nat, q: Queue<T>, m: Move<T>)
    requires Sound(cap, q) && (m.LoadHead? || m.CheckElement? || m.CopySlot? || m.PublishHead?)
    ensures Sound(cap, Moved(cap, q, m))
  {
    var n := |q.popped|;
    MaskWrapped(cap, n);
    if m.CheckElement? && q.consumer.HasHead? {
      WrappedDifference(|q.pushed|, n);
    }
    if m.PublishHead? && q.consumer.Copied? {
      WrappedSum(n, 1);
    }
  }

  /** Under every interleaving, with the counters wrapping at 2^64: what was popped is a prefix of what
      was pushed, and never more than the capacity is in flight. */
  lemma {:induction false} EveryInterleavingIsSound<T>(cap: nat, q: Queue<T>, moves: seq<Move<T>>)
    requires Sound(cap, q)
    ensures Sound(cap, Interleaved(cap, q, moves))
    decreases |moves|
  {
    if moves == [] {
    } else {
      var m := moves[0];
      if m.LoadTail? || m.CheckRoom? || m.WriteSlot? || m.PublishTail? {
        ProducerKeepsSound(cap, q, m);
      } else {
        ConsumerKeepsSound(cap, q, m);
      }
      EveryInterleavingIsSound(cap, Moved(cap, q, m), moves[1..]);
    }
  }

  lemma FirstInFirstOut<T>(cap: nat, q: Queue<T>, moves: seq<Move<T>>)
    requires Empty(cap, q)
    ensures var end := Interleaved(cap, q, moves);
      && end.popped <= end.pushed
      && |end.pushed| - |end.popped| <= cap
      && (end.producer.MayWrite? && (end.consumer.MayRead? || end.consumer.Copied?) ==>
            end.producer.tail % cap != end.consumer.head % cap)
  {
    EveryInterleavingIsSound(cap, q, moves);
    var end := Interleaved(cap, q, moves);
    MaskWrapped(cap, |end.pushed|);
    MaskWrapped(cap, |end.popped|);
    if 0 < |end.pushed| - |end.popped| < cap {
      SlotsDiffer(cap, |end.popped|, |end.pushed|);
    }
  }

  /** Refusals are exact: a push is refused iff the queue is full, and a pop iff it is empty, at the
      instant the other side's counter is loaded. */
  lemma RefusalsAreExact<T>(cap: nat, q: Queue<T>)
    requires Sound(cap, q)
    ensures q.producer.HasTail? ==>
      (Moved(cap, q, CheckRoom).producer.Ready? <==> |q.pushed| - |q.popped| == cap)
    ensures q.consumer.HasHead? ==>
      (Moved(cap, q, CheckElement).consumer.Idle? <==> |q.pushed| == |q.popped|)
  {
    MaskWrapped(cap, 0);
    WrappedDifference(|q.pushed|, |q.popped|);
  }

  // ---- the class ----

  class SpscQueue<T(0)> {
    const samples: array<T>
    var head: U64
    var tail: U64
    ghost var pushed: seq<T>
    ghost var popped: seq<T>

    ghost function Value(): Queue<T>
      reads this, samples
    {
      Queue(samples[..], head, tail, Ready, Idle, pushed, popped)
    }

    ghost predicate Valid()
      reads this, samples
    {
      Sound(samples.Length, Value())
    }

    constructor (capacity: nat)
      requires Capacity(capacity) && 2 <= capacity
      ensures Valid() && fresh(samples) && samples.Length == capacity
      ensures Empty(capacity, Value())
    {
      samples := new T[capacity];
      head, tail, pushed, popped := 0, 0, [], [];
    }

    // The four producer steps, run without the consumer in between.
    method TryPush(value: T) returns (ok: bool)
      requires Valid()
      modifies this`tail, this`pushed, samples
      ensures Valid()
      ensures Value() == Interleaved(samples.Length, old(Value()), [LoadTail(value), CheckRoom, WriteSlot, PublishTail])
      ensures ok == (|old(pushed)| - |old(popped)| < samples.Length)
      ensures pushed == if ok then old(pushed) + [value] else old(pushed)
    {
      hide Sound, Interleaved;
      PushAlone(samples.Length, Value(), value);
      var curTail := tail;
      var curHead := head;
      if Low64(curTail - curHead) >= samples.Length {
        return false;
      }
      samples[curTail % samples.Length] := value;
      tail := Low64(curTail + 1);
      pushed := pushed + [value];
      ok := true;
    }

    // The four consumer steps, run without the producer in between.
    method TryPop() returns (out: Option<T>)
      requires Valid()
      modifies this`head, this`popped
      ensures Valid()
      ensures Value() == Interleaved(samples.Length, old(Value()), [LoadHead, CheckElement, CopySlot, PublishHead])
      ensures out == if |popped| == |old(popped)| then None else Some(old(pushed)[|old(popped)|])
      ensures out.Some? <==> |old(popped)| < |old(pushed)|
    {
      hide Sound, Interleaved;
      PopAlone(samples.Length, Value());
      var curHead := head;
      var curTail := tail;
      if curHead == curTail {
        return None;
      }
      out := Some(samples[curHead % samples.Length]);
      head := Low64(curHead + 1);
      popped := popped + [out.value];
    }
  }

  /** A push without interruption. */
  lemma PushAlone<T>(cap: nat, q: Queue<T>, value: T)
    requires Sound(cap, q) && q.producer.Ready?
    ensures 0 < cap == |q.slots|
    ensures SeesFull(cap, q, q.tail) <==> |q.pushed| - |q.popped| >= cap
    ensures var q' := Interleaved(cap, q, [LoadTail(value), CheckRoom, WriteSlot, PublishTail]);
      && Sound(cap, q')
      && q' == if SeesFull(cap, q, q.tail) then q
               else q.(slots := q.slots[q.tail % cap := value], tail := Low64(q.tail + 1), pushed := q.pushed + [value])
  {
    hide Holds;
    EveryInterleavingIsSound(cap, q, [LoadTail(value), CheckRoom, WriteSlot, PublishTail]);
    FourMoves(cap, q, LoadTail(value), CheckRoom, WriteSlot, PublishTail);
    MaskWrapped(cap, 0);
    WrappedDifference(|q.pushed|, |q.popped|);
  }

  /** A pop without interruption. */
  lemma PopAlone<T>(cap: nat, q: Queue<T>)
    requires Sound(cap, q) && q.consumer.Idle?
    ensures 0 < cap == |q.slots| && |q.popped| <= |q.pushed|
    ensures q.head == q.tail <==> |q.pushed| == |q.popped|
    ensures q.head != q.tail ==> q.slots[q.head % cap] == q.pushed[|q.popped|]
    ensures var q' := Interleaved(cap, q, [LoadHead, CheckElement, CopySlot, PublishHead]);
      && Sound(cap, q')
      && q' == if q.head == q.tail then q
               else q.(head := Low64(q.head + 1), popped := q.popped + [q.slots[q.head % cap]])
  {
    EveryInterleavingIsSound(cap, q, [LoadHead, CheckElement, CopySlot, PublishHead]);
    FourMoves(cap, q, LoadHead, CheckElement, CopySlot, PublishHead);
    HeadSlot(cap, q);
  }

  lemma HeadSlot<T>(cap: nat, q: Queue<T>)
    requires Sound(cap, q)
    ensures q.head == q.tail <==> |q.pushed| == |q.popped|
    ensures q.head != q.tail ==> q.slots[q.head % cap] == q.pushed[|q.popped|]
  {
    MaskWrapped(cap, |q.popped|);
    WrappedDifference(|q.pushed|, |q.popped|);
  }

  lemma FourMoves<T>(cap: nat, q: Queue<T>, a: Move<T>, b: Move<T>, c: Move<T>, d: Move<T>)
    requires 0 < cap == |q.slots|
    ensures Interleaved(cap, q, [a, b, c, d])
      == Moved(cap, Moved(cap, Moved(cap, Moved(cap, q, a), b), c), d)
  {
    hide Moved;
    var q1 := Moved(cap, q, a);
    var q2 := Moved(cap, q1, b);
    var q3 := Moved(cap, q2, c);
    assert [a, b, c, d][1..] == [b, c, d] && [b, c, d][1..] == [c, d] && [c, d][1..] == [d] && [d][1..] == [];
    assert Interleaved(cap, q3, [d]) == Moved(cap, q3, d);
    assert Interleaved(cap, q2, [c, d]) == Interleaved(cap, q3, [d]);
    assert Interleaved(cap, q1, [b, c, d]) == Interleaved(cap, q2, [c, d]);
  }
}

/** The batch ring buffer: element copies and index publications interleaved step by step. */
module RingBuffer {
  import opened Words
  import opened RingSlots

  /** write: nothing loaded, its own index loaded, or `done` of `count` elements of src copied. */
  datatype Writer<T> = Resting | HasIndex(src: seq<T>, index: U64) | Writing(src: seq<T>, index: U64, count: nat, done: nat)

  /** read: nothing loaded, its own index loaded, or some of `count` elements copied to dst. */
  datatype Reader<T> = Waiting | AtIndex(wanted: nat, index: U64) | Reading(index: U64, count: nat, dst: seq<T>)

  /** The shared memory, the two threads, what write accepted and what read returned so far. */
  datatype Ring<T> = Ring(slots: seq<T>, writeIndex: U64, readIndex: U64, writer: Writer<T>, reader: Reader<T>,
                          written: seq<T>, returned: seq<T>)

  datatype Move<T> = StartWrite(src: seq<T>) | MeasureSpace | CopyIn | PublishWrite
                   | StartRead(wanted: nat) | MeasureReady | CopyOut | PublishRead

  function SpaceLeft(cap: nat, r: Ring, index: U64): int { Low64(cap - Low64(index - r.readIndex)) }

  function Available(r: Ring, index: U64): int { Low64(r.writeIndex - index) }

  /** One atomic step; a step the thread is not at changes nothing. */
  function Moved<T>(cap: nat, r: Ring<T>, m: Move<T>): (r': Ring<T>)
    requires 0 < cap == |r.slots|
    ensures |r'.slots| == cap
  {
    match m
    case StartWrite(src) => if r.writer.Resting? then r.(writer := HasIndex(src, r.writeIndex)) else r
    case MeasureSpace =>
      if !r.writer.HasIndex? then r
      else
        var n := Min(|r.writer.src|, SpaceLeft(cap, r, r.writer.index));
        r.(writer := Writing(r.writer.src, r.writer.index, n, 0))
    case CopyIn =>
      if !r.writer.Writing? || r.writer.done >= r.writer.count || r.writer.done >= |r.writer.src| then r
      else
        var w := r.writer;
        r.(slots := r.slots[Low64(w.index + w.done) % cap := w.src[w.done]], writer := w.(done := w.done + 1))
    case PublishWrite =>
      if !r.writer.Writing? || r.writer.done != r.writer.count || r.writer.count > |r.writer.src| then r
      else
        r.(writeIndex := Low64(r.writer.index + r.writer.count), writer := Resting,
           written := r.written + r.writer.src[..r.writer.count])
    case StartRead(wanted) => if r.reader.Waiting? then r.(reader := AtIndex(wanted, r.readIndex)) else r
    case MeasureReady =>
      if !r.reader.AtIndex? then r
      else r.(reader := Reading(r.reader.index, Min(r.reader.wanted, Available(r, r.reader.index)), []))
    case CopyOut =>
      if !r.reader.Reading? || |r.reader.dst| >= r.reader.count then r
      else
        var d := r.reader;
        r.(reader := d.(dst := d.dst + [r.slots[Low64(d.index + |d.dst|) % cap]]))
    case PublishRead =>
      if !r.reader.Reading? || |r.reader.dst| != r.reader.count then r
      else
        r.(readIndex := Low64(r.reader.index + r.reader.count), reader := Waiting,
           returned := r.returned + r.reader.dst)
  }

  function Interleaved<T>(cap: nat, r: Ring<T>, moves: seq<Move<T>>): (r': Ring<T>)
    requires 0 < cap == |r.slots|
    ensures |r'.slots| == cap
    decreases |moves|
  {
    if moves == [] then r else Interleaved(cap, Moved(cap, r, moves[0]), moves[1..])
  }

  // ---- the invariant ----

  ghost predicate Counters<T>(cap: nat, r: Ring<T>)
  {
    && Capacity(cap) && 0 < cap == |r.slots|
    && |r.returned| <= |r.written| <= |r.returned| + cap
    && r.writeIndex == Low64(|r.written|) && r.readIndex == Low64(|r.returned|)
  }

  ghost predicate WriterSound<T>(cap: nat, r: Ring<T>)
    requires 0 < cap == |r.slots|
  {
    match r.writer
    case Resting => true
    case HasIndex(_, index) => index == r.writeIndex
    case Writing(src, index, count, done) =>
      && index == r.writeIndex && done <= count <= |src|
      && |r.written| + count <= |r.returned| + cap
      && Copied(cap, r.slots, src, |r.written|, done)
  }

  ghost predicate ReaderSound<T>(r: Ring<T>)
  {
    match r.reader
    case Waiting => true
    case AtIndex(_, index) => index == r.readIndex
    case Reading(index, count, dst) =>
      && index == r.readIndex && |dst| <= count && |r.returned| + count <= |r.written|
      && dst == r.written[|r.returned|..|r.returned| + |dst|]
  }

  ghost predicate Sound<T>(cap: nat, r: Ring<T>)
  {
    && Counters(cap, r)
    && r.returned <= r.written
    && Holds(cap, r.slots, r.written, |r.returned|, |r.written|)
    && WriterSound(cap, r)
    && ReaderSound(r)
  }

  ghost predicate Empty<T>(cap: nat, r: Ring<T>)
  {
    Capacity(cap) && 0 < cap == |r.slots| && r == Ring(r.slots, 0, 0, Resting, Waiting, [], [])
  }

  // ---- the writer's steps ----

  lemma SpaceIsTrue<T>(cap: nat, r: Ring<T>)
    requires Sound(cap, r)
    ensures SpaceLeft(cap, r, r.writeIndex) == cap - (|r.written| - |r.returned|)
    ensures Available(r, r.readIndex) == |r.written| - |r.returned|
  {
    MaskWrapped(cap, 0);
    WrappedDifference(|r.written|, |r.returned|);
  }

  /** The slot of the element numbered n + done, as the wrapped index reaches it. */
  lemma SlotOf(cap: nat, n: nat, done: nat)
    requires Capacity(cap)
    ensures 0 < cap && Low64(Low64(n) + done) % cap == (n + done) % cap
  {
    WrappedSum(n, done);
    MaskWrapped(cap, n + done);
  }

  lemma HeldAt<T>(cap: nat, slots: seq<T>, history: seq<T>, low: nat, n: nat)
    requires 0 < cap == |slots| && Holds(cap, slots, history, low, |history|) && low <= n < |history|
    ensures slots[n % cap] == history[n]
  {
  }

  ghost predicate Copied<T>(cap: nat, slots: seq<T>, src: seq<T>, from: nat, done: nat)
    requires 0 < cap == |slots| && done <= |src|
  {
    forall i :: from <= i < from + done ==> slots[i % cap] == src[i - from]
  }

  lemma CopyOneMore<T>(cap: nat, slots: seq<T>, src: seq<T>, from: nat, done: nat)
    requires 0 < cap == |slots| && done < |src| && done < cap && Copied(cap, slots, src, from, done)
    ensures Copied(cap, slots[(from + done) % cap := src[done]], src, from, done + 1)
  {
    var slots' := slots[(from + done) % cap := src[done]];
    forall i | from <= i < from + done + 1 ensures slots'[i % cap] == src[i - from] {
      if i < from + done {
        SlotsDiffer(cap, i, from + done);
      }
    }
  }

  lemma CopyInKeepsSound<T>(cap: nat, r: Ring<T>)
    requires Sound(cap, r)
    ensures Sound(cap, Moved(cap, r, CopyIn))
  {
    hide Low64, Capacity, Holds, Copied, ReaderSound;
    if r.writer.Writing? && r.writer.done < r.writer.count {
      var w, n := r.writer, |r.written|;
      SlotOf(cap, n, w.done);
      WriteKeeps(cap, r.slots, r.written, |r.returned|, n, n + w.done, w.src[w.done]);
      CopyOneMore(cap, r.slots, w.src, n, w.done);
      ReaderUntouched(r, Moved(cap, r, CopyIn));
    }
  }

  lemma ReaderUntouched<T>(r: Ring<T>, r': Ring<T>)
    requires ReaderSound(r) && r'.reader == r.reader && r'.readIndex == r.readIndex
    requires r'.written == r.written && r'.returned == r.returned
    ensures ReaderSound(r')
  {
  }

  lemma PublishWriteKeepsSound<T>(cap: nat, r: Ring<T>)
    requires Sound(cap, r)
    ensures Sound(cap, Moved(cap, r, PublishWrite))
  {
    if r.writer.Writing? && r.writer.done == r.writer.count {
      WrappedSum(|r.written|, r.writer.count);
      MaskWrapped(cap, 0);
    }
  }

  // ---- the reader's steps ----

  lemma CopyOutKeepsSound<T>(cap: nat, r: Ring<T>)
    requires Sound(cap, r)
    ensures Sound(cap, Moved(cap, r, CopyOut))
  {
    hide Capacity, Low64;
    if r.reader.Reading? && |r.reader.dst| < r.reader.count {
      var (m, d) := (|r.returned|, |r.reader.dst|);
      WrappedSum(m, d);
      MaskWrapped(cap, m + d);
      assert r.slots[(m + d) % cap] == r.written[m + d];
      SliceSnoc(r.written, m, d);
    }
  }

  lemma PublishReadKeepsSound<T>(cap: nat, r: Ring<T>)
    requires Sound(cap, r)
    ensures Sound(cap, Moved(cap, r, PublishRead))
  {
    if r.reader.Reading? && |r.reader.dst| == r.reader.count {
      var (m, n) := (|r.returned|, r.reader.count);
      WrappedSum(m, n);
      MaskWrapped(cap, 0);
      PrefixGrows(r.written, m, n);
    }
  }

  lemma MeasuresKeepSound<T>(cap: nat, r: Ring<T>, m: Move<T>)
    requires Sound(cap, r) && (m.StartWrite? || m.MeasureSpace? || m.StartRead? || m.MeasureReady?)
    ensures Sound(cap, Moved(cap, r, m))
  {
    SpaceIsTrue(cap, r);
  }

  lemma StepKeepsSound<T>(cap: nat, r: Ring<T>, m: Move<T>)
    requires Sound(cap, r)
    ensures Sound(cap, Moved(cap, r, m))
  {
    hide Moved, Sound;
    match m
    case StartWrite(_) => MeasuresKeepSound(cap, r, m);
    case MeasureSpace => MeasuresKeepSound(cap, r, m);
    case CopyIn => CopyInKeepsSound(cap, r);
    case PublishWrite => PublishWriteKeepsSound(cap, r);
    case StartRead(_) => MeasuresKeepSound(cap, r, m);
    case MeasureReady => MeasuresKeepSound(cap, r, m);
    case CopyOut => CopyOutKeepsSound(cap, r);
    case PublishRead => PublishReadKeepsSound(cap, r);
  }

  lemma {:induction false} EveryInterleavingIsSound<T>(cap: nat, r: Ring<T>, moves: seq<Move<T>>)
    requires Sound(cap, r)
    ensures Sound(cap, Interleaved(cap, r, moves))
    decreases |moves|
  {
    hide Moved;
    if moves == [] {
    } else {
      StepKeepsSound(cap, r, moves[0]);
      EveryInterleavingIsSound(cap, Moved(cap, r, moves[0]), moves[1..]);
    }
  }

  /** Under every interleaving of element copies and publications: what read returned is a prefix of
      what write accepted, and no copy touches a slot the other side is still using. */
  lemma ReadsFollowWrites<T>(cap: nat, r: Ring<T>, moves: seq<Move<T>>)
    requires Empty(cap, r)
    ensures var end := Interleaved(cap, r, moves);
      && end.returned <= end.written
      && |end.written| - |end.returned| <= cap
      && (end.writer.Writing? ==>
            forall i, j :: |end.returned| <= i < |end.written| <= j < |end.written| + end.writer.count ==>
              i % cap != j % cap)
  {
    EveryInterleavingIsSound(cap, r, moves);
    var end := Interleaved(cap, r, moves);
    if end.writer.Writing? {
      forall i, j | |end.returned| <= i < |end.written| <= j < |end.written| + end.writer.count
        ensures i % cap != j % cap
      {
        SlotsDiffer(cap, i, j);
      }
    }
  }

  /** Each call transfers as much as asked for and as the other side had left at the moment it looked. */
  lemma TransfersAreMaximal<T>(cap: nat, r: Ring<T>)
    requires Sound(cap, r)
    ensures r.writer.HasIndex? ==>
      Moved(cap, r, MeasureSpace).writer.count == Min(|r.writer.src|, cap - (|r.written| - |r.returned|))
    ensures r.reader.AtIndex? ==>
      Moved(cap, r, MeasureReady).reader.count == Min(r.reader.wanted, |r.written| - |r.returned|)
    ensures r.writer.Writing? && r.writer.done == r.writer.count ==>
      Moved(cap, r, PublishWrite).written == r.written + r.writer.src[..r.writer.count]
    ensures r.reader.Reading? && |r.reader.dst| == r.reader.count ==>
      Moved(cap, r, PublishRead).returned == r.written[..|r.returned| + r.reader.count]
  {
    SpaceIsTrue(cap, r);
    if r.reader.Reading? && |r.reader.dst| == r.reader.count {
      var (m, n) := (|r.returned|, r.reader.count);
      assert r.written[..m + n] == r.written[..m] + r.written[m..m + n];
    }
  }

  lemma PrefixGrows<T>(a: seq<T>, low: nat, n: nat)
    requires low + n <= |a|
    ensures a[..low + n] == a[..low] + a[low..low + n]
  {
  }

  // ---- the class ----

  class RingBuffer<T(0)> {
    const samples: array<T>
    var writeIndex: U64
    var readIndex: U64
    ghost var written: seq<T>
    ghost var returned: seq<T>

    ghost function Value(): Ring<T>
      reads this, samples
    {
      Ring(samples[..], writeIndex, readIndex, Resting, Waiting, written, returned)
    }

    ghost predicate Valid()
      reads this, samples
    {
      Sound(samples.Length, Value())
    }

    constructor (capacity: nat)
      requires Capacity(capacity) && 1 <= capacity
      ensures Valid() && fresh(samples) && samples.Length == capacity
      ensures Empty(capacity, Value())
    {
      samples := new T[capacity];
      writeIndex, readIndex, written, returned := 0, 0, [], [];
    }

    method Write(src: seq<T>) returns (n: nat)
      requires Valid()
      modifies this`writeIndex, this`written, samples
      ensures Valid()
      ensures n == Min(|src|, samples.Length - (|old(written)| - |returned|))
      ensures written == old(written) + src[..n]
    {
      hide Low64, Capacity, Holds;
      SpaceIsTrue(samples.Length, Value());
      var writePos := writeIndex;
      var readPos := readIndex;
      var spaceLeft := Low64(samples.Length - Low64(writePos - readPos));
      n := if |src| < spaceLeft then |src| else spaceLeft;
      CopyIn(writePos, src, n, written, |returned|);
      WrappedSum(|written|, n);
      writeIndex := Low64(writePos + n);
      written := written + src[..n];
    }

    // The copy loop of write.
    method CopyIn(writePos: U64, src: seq<T>, n: nat, ghost history: seq<T>, ghost low: nat)
      requires Capacity(samples.Length) && 0 < samples.Length
      requires writePos == Low64(|history|) && n <= |src|
      requires low <= |history| && |history| + n <= low + samples.Length
      requires Holds(samples.Length, samples[..], history, low, |history|)
      modifies samples
      ensures Holds(samples.Length, samples[..], history + src[..n], low, |history| + n)
    {
      assert history + src[..0] == history;
      for i := 0 to n
        invariant Holds(samples.Length, samples[..], history + src[..i], low, |history| + i)
      {
        ghost var (slots, sofar) := (samples[..], history + src[..i]);
        WrappedSum(|history|, i);
        MaskWrapped(samples.Length, |history| + i);
        AppendHolds(samples.Length, slots, sofar, low, src[i]);
        samples[Low64(writePos + i) % samples.Length] := src[i];
        assert samples[..] == slots[|sofar| % samples.Length := src[i]];
        assert sofar + [src[i]] == history + src[..i + 1];
      }
    }

    method Read(count: nat) returns (dst: seq<T>)
      requires Valid()
      modifies this`readIndex, this`returned
      ensures Valid()
      ensures |dst| == Min(count, |written| - |old(returned)|)
      ensures dst == written[|old(returned)|..|old(returned)| + |dst|]
      ensures returned == old(returned) + dst
    {
      hide Capacity, Low64, Holds;
      SpaceIsTrue(samples.Length, Value());
      var readPos := readIndex;
      var writePos := writeIndex;
      var ready := Low64(writePos as int - readPos);
      var n := if count < ready then count else ready;
      ghost var base := |returned|;
      dst := CopyOut(readPos, n, written, base);
      WrappedSum(base, n);
      readIndex := Low64(readPos + n);
      PrefixGrows(written, base, n);
      HoldsFewer(samples.Length, samples[..], written, base, base + n, |written|);
      returned := returned + dst;
    }

    // The copy loop of read.
    method CopyOut(readPos: U64, n: nat, ghost history: seq<T>, ghost base: nat) returns (dst: seq<T>)
      requires Capacity(samples.Length) && 0 < samples.Length
      requires readPos == Low64(base) && base + n <= |history|
      requires Holds(samples.Length, samples[..], history, base, |history|)
      ensures dst == history[base..base + n]
    {
      hide Capacity, Low64, Holds;
      dst := [];
      for i := 0 to n
        invariant dst == history[base..base + i]
      {
        SlotOf(samples.Length, base, i);
        HeldAt(samples.Length, samples[..], history, base, base + i);
        SliceSnoc(history, base, i);
        dst := dst + [samples[Low64(readPos + i) % samples.Length]];
      }
    }
  }
}

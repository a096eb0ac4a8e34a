/** The circular buffer of block_queue.h. The methods are the bodies of the critical sections;
    LogMachine has the locking around them. */
module BlockQueue {
  import opened Wrappers

  /** m_array, m_front, m_back and m_size; m_max_size is |slots|. */
  datatype Ring<T> = Ring(slots: seq<T>, front: int, back: int, size: int)
  {
    /** front and back are the last slots read and written, -1 standing for the one before slot 0. */
    predicate Valid()
    {
      && |slots| > 0
      && 0 <= size <= |slots|
      && -1 <= front < |slots|
      && -1 <= back < |slots|
      && (front + 1 + size) % |slots| == (back + 1) % |slots|
    }

    /** Slot of the i-th oldest element. */
    function Slot(i: nat): (k: nat)
      requires Valid()
      ensures k < |slots|
      ensures i < |slots| ==> k == if front + 1 + i < |slots| then front + 1 + i else front + 1 + i - |slots|
    {
      Wrap(front + 1 + i, |slots|);
      (front + 1 + i) % |slots|
    }

    function Contents(): (q: seq<T>)
      requires Valid()
      ensures |q| == size
      ensures forall i :: 0 <= i < size ==> q[i] == slots[Slot(i)]
    {
      seq(size, (i: int) requires 0 <= i < size => slots[Slot(i)])
    }
  }

  function PushRing<T>(r: Ring<T>, x: T): (Ring<T>, bool)
    requires r.Valid()
  {
    if r.size >= |r.slots| then (r, false)
    else
      var back := (r.back + 1) % |r.slots|;
      (Ring(r.slots[back := x], r.front, back, r.size + 1), true)
  }

  /** None where the source waits for a broadcast. */
  function PopRing<T>(r: Ring<T>): (Ring<T>, Option<T>)
    requires r.Valid()
  {
    if r.size <= 0 then (r, None)
    else
      var front := (r.front + 1) % |r.slots|;
      (Ring(r.slots, front, r.back, r.size - 1), Some(r.slots[front]))
  }

  function ClearRing<T>(r: Ring<T>): Ring<T>
    requires r.Valid()
  {
    Ring(r.slots, -1, -1, 0)
  }

  lemma Wrap(a: int, m: int)
    requires 0 <= a && 0 < m
    ensures a < m ==> a % m == a
    ensures m <= a < 2 * m ==> a % m == a - m
    ensures a == 2 * m ==> a % m == 0
  {
    if m <= a < 2 * m {
      assert a == 1 * m + (a - m);
    }
  }

  lemma PushStaysValid<T>(r: Ring<T>, x: T)
    requires r.Valid()
    ensures var (t, ok) := PushRing(r, x); t.Valid() && (ok ==> t.back == r.Slot(r.size))
  {
    var m := |r.slots|;
    Wrap(r.back + 1, m);
    Wrap(r.front + 1 + r.size, m);
    if r.size < m {
      NextSlot(r.front + 1 + r.size, r.back + 1, m);
    }
  }

  lemma NextSlot(a: int, b: int, m: int)
    requires 0 < m && 0 <= a < 2 * m && 0 <= b <= m && a % m == b % m
    ensures (a + 1) % m == (b % m + 1) % m
  {
    Wrap(a, m);
    Wrap(b, m);
    Wrap(a + 1, m);
    Wrap(b % m + 1, m);
  }

  lemma PushAppends<T>(r: Ring<T>, x: T)
    requires r.Valid()
    ensures var (t, ok) := PushRing(r, x);
            && t.Valid() && |t.slots| == |r.slots|
            && ok == (r.size < |r.slots|)
            && t.Contents() == (if ok then r.Contents() + [x] else r.Contents())
            && (!ok ==> t == r)
  {
    var (t, ok) := PushRing(r, x);
    PushStaysValid(r, x);
    if ok {
      forall i | 0 <= i <= r.size
        ensures t.Contents()[i] == (r.Contents() + [x])[i]
      {
        assert t.Slot(i) == r.Slot(i);
      }
    }
  }

  lemma PopTakesFirst<T>(r: Ring<T>)
    requires r.Valid()
    ensures var (t, x) := PopRing(r);
            && t.Valid() && |t.slots| == |r.slots|
            && (x == None <==> r.Contents() == [])
            && (if x == None then t == r else r.Contents() == [x.value] + t.Contents())
  {
    var (t, x) := PopRing(r);
    PopStaysValid(r);
    if x != None {
      forall i | 0 <= i < t.size
        ensures t.Contents()[i] == r.Contents()[i + 1]
      {
        assert t.Slot(i) == r.Slot(i + 1);
      }
    }
  }

  lemma PopStaysValid<T>(r: Ring<T>)
    requires r.Valid()
    ensures var (t, x) := PopRing(r); t.Valid() && (x.Some? ==> t.front == r.Slot(0) && x.value == r.Contents()[0])
  {
    var m := |r.slots|;
    if r.size > 0 {
      Wrap(r.front + 1, m);
      Wrap(r.front + 1 + r.size, m);
      Wrap((r.front + 1) % m + r.size, m);
    }
  }

  // ----- Every sequence of calls -----

  datatype Call<T> = DoPush(item: T) | DoPop | DoClear

  datatype Answer<T> = Pushed(ok: bool) | Popped(item: Option<T>) | Cleared

  /** The bounded FIFO queue: what the ring is for. */
  function FifoCall<T>(q: seq<T>, capacity: nat, c: Call<T>): (seq<T>, Answer<T>)
  {
    match c
    case DoPush(x) => if |q| < capacity then (q + [x], Pushed(true)) else (q, Pushed(false))
    case DoPop => if q == [] then (q, Popped(None)) else (q[1..], Popped(Some(q[0])))
    case DoClear => ([], Cleared)
  }

  function RingCall<T>(r: Ring<T>, c: Call<T>): (Ring<T>, Answer<T>)
    requires r.Valid()
  {
    match c
    case DoPush(x) => var (t, ok) := PushRing(r, x); (t, Pushed(ok))
    case DoPop => var (t, x) := PopRing(r); (t, Popped(x))
    case DoClear => (ClearRing(r), Cleared)
  }

  function FifoAnswers<T>(q: seq<T>, capacity: nat, calls: seq<Call<T>>): seq<Answer<T>>
    decreases |calls|
  {
    if calls == [] then []
    else
      var (q', answer) := FifoCall(q, capacity, calls[0]);
      [answer] + FifoAnswers(q', capacity, calls[1..])
  }

  ghost predicate RingAnswers<T>(r: Ring<T>, calls: seq<Call<T>>, answers: seq<Answer<T>>)
    requires r.Valid()
    decreases |calls|
  {
    if calls == [] then answers == []
    else
      var (t, answer) := RingCall(r, calls[0]);
      t.Valid() && answers != [] && answers[0] == answer && RingAnswers(t, calls[1..], answers[1..])
  }

  lemma CallRefines<T>(r: Ring<T>, c: Call<T>)
    requires r.Valid()
    ensures var (t, answer) := RingCall(r, c);
            t.Valid() && |t.slots| == |r.slots| && (t.Contents(), answer) == FifoCall(r.Contents(), |r.slots|, c)
  {
    match c
    case DoPush(x) => PushAppends(r, x);
    case DoPop => PopTakesFirst(r);
    case DoClear =>
  }

  /** Any sequence of pushes, pops and clears, through any number of wraparounds and restarts
      from -1, is answered as by a FIFO queue of the same capacity. */
  lemma {:induction false} RingIsFifo<T>(r: Ring<T>, calls: seq<Call<T>>)
    requires r.Valid()
    ensures RingAnswers(r, calls, FifoAnswers(r.Contents(), |r.slots|, calls))
    decreases |calls|
  {
    if calls != [] {
      CallRefines(r, calls[0]);
      RingIsFifo(RingCall(r, calls[0]).0, calls[1..]);
    }
  }

  // ----- The class -----

  class BlockQueue<T(0)> {
    var slots: array<T>
    var size: int
    var maxSize: int
    var front: int
    var back: int

    function State(): Ring<T>
      reads this, slots
    {
      Ring(slots[..], front, back, size)
    }

    predicate Valid()
      reads this, slots
    {
      slots.Length == maxSize && State().Valid()
    }

    constructor (capacity: int)
      requires capacity > 0
      ensures Valid() && fresh(slots) && maxSize == capacity
      ensures State().Contents() == []
    {
      maxSize := capacity;
      slots := new T[capacity];
      size := 0;
      front := -1;
      back := -1;
    }

    method Clear()
      requires Valid()
      modifies this
      ensures Valid() && slots == old(slots) && maxSize == old(maxSize)
      ensures State().Contents() == []
    {
      size := 0;
      front := -1;
      back := -1;
    }

    method Full() returns (full: bool)
      requires Valid()
      ensures full <==> |State().Contents()| == maxSize
    {
      full := size >= maxSize;
    }

    method Size() returns (n: int)
      requires Valid()
      ensures n == |State().Contents()|
    {
      n := size;
    }

    method Push(item: T) returns (ok: bool)
      requires Valid()
      modifies this, slots
      ensures Valid() && slots == old(slots) && maxSize == old(maxSize)
      ensures (State(), ok) == PushRing(old(State()), item)
      ensures ok <==> |old(State().Contents())| < maxSize
      ensures State().Contents() == old(State().Contents()) + (if ok then [item] else [])
    {
      ghost var before := State();
      PushAppends(before, item);
      if size >= maxSize {
        return false;
      }
      Wrap(back + 1, maxSize);
      back := (back + 1) % maxSize;
      slots[back] := item;
      size := size + 1;
      ok := true;
      assert State().slots == before.slots[back := item];
    }

    /** Past the wait loop, so with an element there. */
    method Pop() returns (item: T)
      requires Valid() && State().Contents() != []
      modifies this
      ensures Valid() && slots == old(slots) && maxSize == old(maxSize)
      ensures (State(), Some(item)) == PopRing(old(State()))
      ensures old(State().Contents()) == [item] + State().Contents()
    {
      PopTakesFirst(State());
      front := (front + 1) % maxSize;
      item := slots[front];
      size := size - 1;
    }
  }

  /** The block_queue constructor; None where it exits the process. */
  method NewBlockQueue<T(0)>(maxSize: int) returns (queue: Option<BlockQueue<T>>)
    ensures queue == None <==> maxSize <= 0
    ensures queue.Some? ==>
              && fresh(queue.value) && fresh(queue.value.slots) && queue.value.Valid()
              && queue.value.maxSize == maxSize && queue.value.State().Contents() == []
  {
    if maxSize <= 0 {
      return None;
    }
    var it := new BlockQueue<T>(maxSize);
    return Some(it);
  }
}

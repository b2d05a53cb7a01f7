/** The bounded queue: a ring buffer in a fixed array, against a FIFO sequence. */
module RingBuffer {
  import opened Options

  const MIN_CAPACITY: int := 1
  const MAX_CAPACITY: int := 65536

  predicate ValidCapacity(capacity: int) {
    MIN_CAPACITY <= capacity <= MAX_CAPACITY
  }

  /** The slot `offset` places after the head. */
  function Slot(head: nat, offset: nat, capacity: nat): (slot: nat)
    requires head < capacity && offset <= capacity
    ensures slot < capacity
    ensures slot == if head + offset < capacity then head + offset else head + offset - capacity
  {
    Wraps(head, offset, capacity);
    (head + offset) % capacity
  }

  lemma Wraps(head: nat, offset: nat, capacity: nat)
    requires head < capacity && offset <= capacity
    ensures (head + offset) % capacity == if head + offset < capacity then head + offset else head + offset - capacity
  {
    if head + offset >= capacity {
      var r := head + offset - capacity;
      assert head + offset == 1 * capacity + r;
    }
  }

  /** `slots` holds exactly `items` from `head` on, and `None` everywhere else. */
  ghost predicate Represents<T>(slots: seq<Option<T>>, head: nat, items: seq<T>) {
    && head < |slots| && |items| <= |slots|
    && (forall i :: 0 <= i < |items| ==> slots[Slot(head, i, |slots|)] == Some(items[i]))
    && (forall i :: |items| <= i < |slots| ==> slots[Slot(head, i, |slots|)] == None)
  }

  lemma Send<T>(slots: seq<Option<T>>, head: nat, items: seq<T>, value: T)
    requires Represents(slots, head, items) && |items| < |slots|
    ensures Represents(slots[Slot(head, |items|, |slots|) := Some(value)], head, items + [value])
  {
    var r := slots[Slot(head, |items|, |slots|) := Some(value)];
    forall i | 0 <= i < |slots| && i != |items| ensures r[Slot(head, i, |slots|)] == slots[Slot(head, i, |slots|)] { }
  }

  lemma Receive<T>(slots: seq<Option<T>>, head: nat, items: seq<T>)
    requires Represents(slots, head, items) && items != []
    ensures Represents(slots[head := None], Slot(head, 1, |slots|), items[1..])
  {
    var n := |slots|;
    var next := Slot(head, 1, n);
    assert Slot(head, 0, n) == head;
    forall i | 0 <= i < n ensures Slot(next, i, n) == if i + 1 < n then Slot(head, i + 1, n) else head { }
  }

  class BoundedQueue<T> {
    const capacity: nat
    const buffer: array<Option<T>>
    var head: nat
    var tail: nat
    var count: nat
    ghost var items: seq<T>

    ghost predicate Valid()
      reads this, buffer
    {
      && ValidCapacity(capacity) && buffer.Length == capacity
      && count == |items| && head < capacity && count <= capacity && tail == Slot(head, count, capacity)
      && Represents(buffer[..], head, items)
    }

    constructor (capacity: nat)
      requires ValidCapacity(capacity)
      ensures Valid() && items == [] && this.capacity == capacity && fresh(buffer)
    {
      this.capacity := capacity;
      buffer := new Option<T>[capacity](_ => None);
      head, tail, count := 0, 0, 0;
      items := [];
    }

    method Length() returns (n: nat)
      requires Valid()
      ensures n == |items|
    {
      n := count;
    }

    method IsFull() returns (full: bool)
      requires Valid()
      ensures full <==> |items| == capacity
    {
      full := count == capacity;
    }

    method IsEmpty() returns (empty: bool)
      requires Valid()
      ensures empty <==> items == []
    {
      empty := count == 0;
    }

    /** Refused exactly when the queue is full; otherwise the value goes to the back. */
    method TrySend(value: T) returns (sent: bool)
      requires Valid()
      modifies this`tail, this`count, this`items, buffer
      ensures Valid()
      ensures sent <==> |old(items)| < capacity
      ensures items == if sent then old(items) + [value] else old(items)
      ensures !sent ==> buffer[..] == old(buffer[..])
    {
      if count == capacity { return false; }
      Send(buffer[..], head, items, value);
      buffer[tail] := Some(value);
      items := items + [value];
      tail := (tail + 1) % capacity;
      count := count + 1;
      sent := true;
      assert buffer[..] == old(buffer[..])[old(tail) := Some(value)];
      NextTail(head, old(count), capacity);
    }

    /** The front value, whose slot no longer holds it; nothing when the queue is empty. */
    method TryReceive() returns (value: Option<T>)
      requires Valid()
      modifies this`head, this`count, this`items, buffer
      ensures Valid()
      ensures value == if old(items) == [] then None else Some(old(items)[0])
      ensures items == if old(items) == [] then [] else old(items)[1..]
      ensures old(items) != [] ==> buffer[old(head)] == None
    {
      if count == 0 { return None; }
      Receive(buffer[..], head, items);
      assert Slot(head, 0, capacity) == head;
      value := buffer[head];
      buffer[head] := None;
      items := items[1..];
      head := (head + 1) % capacity;
      count := count - 1;
      assert buffer[..] == old(buffer[..])[old(head) := None];
      assert head == Slot(old(head), 1, capacity);
      SameTail(old(head), count, capacity);
    }

    /** The queued values, front first. */
    method SnapshotItems() returns (r: seq<T>)
      requires Valid()
      ensures r == items
    {
      r := [];
      for offset := 0 to count
        invariant r == items[..offset]
      {
        var slot := (head + offset) % capacity;
        assert slot == Slot(head, offset, capacity);
        assert buffer[..][slot] == Some(items[offset]);
        r := r + [buffer[slot].value];
      }
    }
  }

  lemma NextTail(head: nat, count: nat, capacity: nat)
    requires head < capacity && count < capacity
    ensures (Slot(head, count, capacity) + 1) % capacity == Slot(head, count + 1, capacity)
  {
    Wraps(Slot(head, count, capacity), 1, capacity);
  }

  lemma SameTail(head: nat, count: nat, capacity: nat)
    requires head < capacity && count < capacity
    ensures Slot(head, count + 1, capacity) == Slot(Slot(head, 1, capacity), count, capacity)
  {
  }

  // ----- Whole runs

  datatype Step<T> = Sent(value: T, accepted: bool) | Received(item: Option<T>)

  /** The FIFO after a run, when each step is one that a bounded FIFO can make. */
  ghost function Fifo<T>(capacity: nat, steps: seq<Step<T>>): Option<seq<T>> {
    if steps == [] then Some([])
    else
      var before := Fifo(capacity, steps[..|steps| - 1]);
      if before.None? then None
      else match steps[|steps| - 1]
        case Sent(v, accepted) =>
          if accepted != (|before.value| < capacity) then None
          else if accepted then Some(before.value + [v]) else before
        case Received(r) =>
          if before.value == [] then (if r == None then before else None)
          else if r == Some(before.value[0]) then Some(before.value[1..]) else None
  }

  /** The values that went in and those that came out. */
  function Accepted<T>(steps: seq<Step<T>>): seq<T> {
    if steps == [] then []
    else
      var s := steps[|steps| - 1];
      Accepted(steps[..|steps| - 1]) + (if s.Sent? && s.accepted then [s.value] else [])
  }

  function Delivered<T>(steps: seq<Step<T>>): seq<T> {
    if steps == [] then []
    else
      var s := steps[|steps| - 1];
      Delivered(steps[..|steps| - 1]) + (if s.Received? && s.item.Some? then [s.item.value] else [])
  }

  /** Over any run nothing is lost, duplicated or reordered: what came out, followed by what is still queued, is
      what went in; and the queue never holds more than its capacity. */
  lemma {:induction false} FirstInFirstOut<T>(capacity: nat, steps: seq<Step<T>>)
    requires Fifo(capacity, steps).Some?
    ensures Delivered(steps) + Fifo(capacity, steps).value == Accepted(steps)
    ensures |Fifo(capacity, steps).value| <= capacity
  {
    if steps != [] {
      var n := |steps| - 1;
      FirstInFirstOut(capacity, steps[..n]);
      var queue := Fifo(capacity, steps[..n]).value;
      match steps[n]
      case Sent(v, accepted) =>
      case Received(r) => if queue != [] { assert queue == [queue[0]] + queue[1..]; }
    }
  }

  /** What to do next: send a value, or receive. */
  datatype Request<T> = Put(value: T) | Take

  /** A queue of the given capacity, or KS3901 for a capacity outside 1..65536. */
  method NewQueue<T>(capacity: int) returns (queue: Option<BoundedQueue<T>>)
    ensures queue.Some? <==> ValidCapacity(capacity)
    ensures queue.Some? ==>
      && fresh(queue.value) && fresh(queue.value.buffer)
      && queue.value.Valid() && queue.value.items == [] && queue.value.capacity == capacity
  {
    if !ValidCapacity(capacity) { return None; }
    var q := new BoundedQueue<T>(capacity);
    return Some(q);
  }

  /** Serving any requests on the ring buffer is a run of the bounded FIFO, and ends in the state that run gives. */
  method Serve<T>(capacity: int, requests: seq<Request<T>>) returns (steps: seq<Step<T>>, left: Option<seq<T>>)
    ensures left.Some? <==> ValidCapacity(capacity)
    ensures left.Some? ==>
      && |steps| == |requests| && Fifo(capacity, steps) == left
      && Delivered(steps) + left.value == Accepted(steps) && |left.value| <= capacity
  {
    steps := [];
    var created := NewQueue<T>(capacity);
    if created.None? { return [], None; }
    var queue := created.value;
    for i := 0 to |requests|
      invariant |steps| == i && queue.Valid() && queue.capacity == capacity && fresh(queue) && fresh(queue.buffer)
      invariant Fifo(capacity, steps) == Some(queue.items)
    {
      var step;
      match requests[i] {
        case Put(v) =>
          var accepted := queue.TrySend(v);
          step := Sent(v, accepted);
        case Take =>
          var value := queue.TryReceive();
          step := Received(value);
      }
      assert (steps + [step])[..|steps|] == steps;
      steps := steps + [step];
    }
    FirstInFirstOut(capacity, steps);
    var items := queue.SnapshotItems();
    left := Some(items);
  }
}

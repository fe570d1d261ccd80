/**
 SPSCQueue.h: the value-carrying ring that takes statistics from the worker to the monitor.
 */
module SPSCQueues {
  import opened Bytes
  import opened Wrappers
  import opened SpscRing
  import MessageQueues

  datatype MessageStats = MessageStats(messageNumber: int, sendTimestamp: int, recvTimestamp: int, position: int)

  class SPSCQueue<T(0)> {
    const buffer: array<T>
    var head: nat
    var tail: nat
    ghost var pushed: seq<T>
    ghost var popped: seq<T>

    /** Every slot holds some value; nothing is ever nulled. */
    ghost function Slots(): (slots: seq<Option<T>>)
      reads buffer
    {
      seq(buffer.Length, i requires 0 <= i < buffer.Length reads buffer => Some(buffer[i]))
    }

    ghost function View(): Ring<T>
      reads this, buffer
    {
      Ring(ValueRing, Slots(), head, tail, Quiet, Resting, 0, 0, 0, pushed, popped)
    }

    ghost predicate Valid()
      reads this, buffer
    {
      IsPowerOfTwo(buffer.Length) && 2 <= buffer.Length && Inv(View())
    }

    ghost function Queued(): seq<T>
      reads this, buffer
    {
      Contents(View())
    }

    constructor (size: nat)
      requires IsPowerOfTwo(size) && 2 <= size
      ensures Valid() && fresh(buffer) && buffer.Length == size && Queued() == []
    {
      buffer := new T[size];
      head, tail := 0, 0;
      pushed, popped := [], [];
    }

    /** A full queue drops the item; the producer never waits. */
    method Enqueue(item: T) returns (ok: bool)
      requires Valid()
      modifies this, buffer
      ensures Valid()
      ensures ok == (|old(Queued())| < buffer.Length - 1)
      ensures Queued() == if ok then old(Queued()) + [item] else old(Queued())
      ensures ok ==> View() == Run(old(View()), Solo(4, Produce(item)))
      ensures !ok ==> View() == old(View())
    {
      hide Inv, Contents, Run, Solo, BitAnd, Wrap, IsPowerOfTwo;
      ghost var before := View();
      ValueEnqueue(before, item);
      var currentTail := tail;
      MessageQueues.MaskIsWrap(currentTail + 1, buffer.Length);
      var nextTail := BitAnd(currentTail + 1, buffer.Length - 1);
      if nextTail == head {
        return false;
      }
      buffer[currentTail] := item;
      tail := nextTail;
      pushed := pushed + [item];
      ok := true;
      assert Slots() == before.slots[currentTail := Some(item)];
    }

    method Dequeue() returns (item: Option<T>)
      requires Valid()
      modifies this
      ensures Valid()
      ensures item.Some? <==> old(Queued()) != []
      ensures old(Queued()) == (if item.Some? then [item.value] else []) + Queued()
      ensures View() == Run(old(View()), Solo(if item.Some? then 4 else 2, Consume))
    {
      hide Inv, Contents, Run, Solo, BitAnd, Wrap, IsPowerOfTwo;
      ghost var before := View();
      ValueDequeue(before);
      var currentHead := head;
      if currentHead == tail {
        return None;
      }
      item := Some(buffer[currentHead]);
      MessageQueues.MaskIsWrap(currentHead + 1, buffer.Length);
      head := BitAnd(currentHead + 1, buffer.Length - 1);
      popped := popped + [item.value];
    }

    /** The branching difference, not the mask. */
    method Size() returns (n: nat)
      requires Valid()
      ensures n == |Queued()|
    {
      DepthIsExact(View());
      if tail >= head {
        ModuloUnique(tail - head, buffer.Length, 0, tail - head);
        n := tail - head;
      } else {
        ModuloUnique(tail - head, buffer.Length, -1, buffer.Length - head + tail);
        n := buffer.Length - head + tail;
      }
    }

    method IsEmpty() returns (b: bool)
      requires Valid()
      ensures b <==> Queued() == []
    {
      MessageQueues.EmptyIsEmpty(View());
      b := head == tail;
    }
  }

  lemma UnrollFour<T>(r: Ring<T>, a: Action<T>)
    requires InBounds(r)
    ensures Run(r, Solo(4, a)) == Step(Step(Step(Step(r, a).0, a).0, a).0, a).0
  {
    hide Step, Run, Solo, InBounds;
    var r1 := Step(r, a).0;
    RunSolo(r, 4, a);
    RunSolo(r1, 3, a);
    MessageQueues.UnrollTwo(Step(r1, a).0, a);
  }

  lemma ValueEnqueueRun<T>(r: Ring<T>, x: T)
    requires InBounds(r) && r.kind.ValueRing? && r.producer.Quiet? && Wrap(r.tail + 1, Size(r)) != r.head
    ensures Run(r, Solo(4, Produce(x)))
            == r.(slots := r.slots[r.tail := Some(x)], tail := Wrap(r.tail + 1, Size(r)), pushed := r.pushed + [x])
  {
    hide Run, Solo, Wrap, ConsumerStep;
    UnrollFour(r, Produce(x));
    MessageQueues.StoredAfterThree(r, x);
  }

  lemma ValueEnqueue<T>(r: Ring<T>, x: T)
    requires Inv(r) && r.kind.ValueRing? && r.producer.Quiet?
    ensures |Contents(r)| <= Size(r) - 1
    ensures Wrap(r.tail + 1, Size(r)) == r.head <==> |Contents(r)| == Size(r) - 1
    ensures Wrap(r.tail + 1, Size(r)) != r.head
            ==> var r' := Run(r, Solo(4, Produce(x)));
                && r' == r.(slots := r.slots[r.tail := Some(x)], tail := Wrap(r.tail + 1, Size(r)), pushed := r.pushed + [x])
                && Inv(r') && Contents(r') == Contents(r) + [x]
  {
    hide Run, Solo, Wrap, LiveSlots, Step;
    MessageQueues.FullIsFull(r);
    RunRefines(r, Solo(4, Produce(x)));
    if Wrap(r.tail + 1, Size(r)) != r.head {
      ValueEnqueueRun(r, x);
    }
  }

  lemma ValueDequeueRun<T>(r: Ring<T>)
    requires InBounds(r) && r.kind.ValueRing? && r.consumer.Resting? && r.slots[r.head].Some?
    ensures Run(r, Solo(if r.head == r.tail then 2 else 4, Consume))
            == if r.head == r.tail then r
               else r.(head := Wrap(r.head + 1, Size(r)), popped := r.popped + [r.slots[r.head].value])
  {
    hide Run, Solo, Wrap, ProducerStep;
    if r.head != r.tail {
      UnrollFour(r, Consume);
      MessageQueues.TookAfterThree(r);
    } else {
      MessageQueues.UnrollTwo(r, Consume);
    }
  }

  lemma HeadHolds<T>(r: Ring<T>)
    requires Inv(r) && r.consumer.Resting?
    ensures Contents(r) != [] ==> r.slots[r.head] == Some(Contents(r)[0])
  {
    hide Wrap, ProducerInv, ConsumerInv;
  }

  lemma ValueDequeue<T>(r: Ring<T>)
    requires Inv(r) && r.kind.ValueRing? && r.consumer.Resting? && r.slots[r.head].Some?
    ensures r.head == r.tail <==> Contents(r) == []
    ensures r.head == r.tail ==> Run(r, Solo(2, Consume)) == r
    ensures r.head != r.tail
            ==> var r' := Run(r, Solo(4, Consume));
                && r' == r.(head := Wrap(r.head + 1, Size(r)), popped := r.popped + [r.slots[r.head].value])
                && Inv(r') && Contents(r) == [r.slots[r.head].value] + Contents(r')
  {
    hide Run, Solo, Wrap, Step, Inv, FifoRun, Trace;
    MessageQueues.EmptyIsEmpty(r);
    RunRefines(r, Solo(4, Consume));
    ValueDequeueRun(r);
    HeadHolds(r);
    if r.head != r.tail {
      TailHead(r.pushed, |r.popped|);
    }
  }
}

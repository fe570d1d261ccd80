/**
 MessageQueue.h: the pointer ring handed from the subscriber thread to the worker thread.
 A null pointer is None. Each method, run without interference, is the ring's own steps in order.
 */
module MessageQueues {
  import opened Bytes
  import opened Wrappers
  import opened SpscRing

  class MessageQueue<T> {
    const buffer: array<Option<T>>
    var head: nat
    var tail: nat
    var totalEnqueued: nat
    var totalDequeued: nat
    var enqueueFailures: nat
    ghost var pushed: seq<T>
    ghost var popped: seq<T>

    ghost function View(): Ring<T>
      reads this, buffer
    {
      Ring(PointerRing, buffer[..], head, tail, Quiet, Resting,
           totalEnqueued, totalDequeued, enqueueFailures, pushed, popped)
    }

    ghost predicate Valid()
      reads this, buffer
    {
      IsPowerOfTwo(buffer.Length) && 16 <= buffer.Length <= 65536 && Inv(View())
    }

    ghost function Queued(): seq<T>
      reads this, buffer
    {
      Contents(View())
    }

    constructor (size: nat)
      requires IsPowerOfTwo(size) && 16 <= size <= 65536
      ensures Valid() && fresh(buffer) && buffer.Length == size
      ensures View() == Init(PointerRing, size) && Queued() == []
    {
      buffer := new Option<T>[size](_ => None);
      head, tail := 0, 0;
      totalEnqueued, totalDequeued, enqueueFailures := 0, 0, 0;
      pushed, popped := [], [];
      new;
      assert buffer[..] == seq(size, _ => None);
      InitInv<T>(PointerRing, size);
    }

    method Enqueue(buf: Option<T>) returns (ok: bool)
      requires Valid()
      modifies this, buffer
      ensures Valid()
      ensures ok == (buf.Some? && |old(Queued())| < buffer.Length - 1)
      ensures Queued() == if ok then old(Queued()) + [buf.value] else old(Queued())
      ensures buf.Some? ==> View() == Run(old(View()), Solo(if ok then 5 else 2, Produce(buf.value)))
      ensures buf.None? ==> View() == old(View())
    {
      hide Inv, Contents, Run, Solo, BitAnd, Wrap, IsPowerOfTwo;
      if buf.None? {
        return false;
      }
      ghost var before := View();
      EnqueueSpec(before, buf.value);
      EnqueueRun(before, buf.value);
      var currentTail := tail;
      MaskIsWrap(currentTail + 1, buffer.Length);
      var nextTail := BitAnd(currentTail + 1, buffer.Length - 1);
      if nextTail == head {
        enqueueFailures := enqueueFailures + 1;
        assert View() == EnqueueAlone(before, buf.value);
        return false;
      }
      buffer[currentTail] := buf;
      tail := nextTail;
      pushed := pushed + [buf.value];
      totalEnqueued := totalEnqueued + 1;
      ok := true;
      assert buffer[..] == before.slots[currentTail := buf];
      assert View() == EnqueueAlone(before, buf.value);
    }

    method Dequeue() returns (buf: Option<T>)
      requires Valid()
      modifies this, buffer
      ensures Valid()
      ensures buf.Some? <==> old(Queued()) != []
      ensures buf.Some? ==> old(Queued()) == [buf.value] + Queued()
      ensures buf.None? ==> Queued() == old(Queued())
      ensures View() == Run(old(View()), Solo(if buf.Some? then 6 else 2, Consume))
    {
      hide Inv, Contents, Run, Solo, BitAnd, Wrap, IsPowerOfTwo;
      ghost var before := View();
      DequeueSpec(before);
      DequeueRun(before);
      var currentHead := head;
      MaskIsWrap(currentHead + 1, buffer.Length);
      var nextHead := BitAnd(currentHead + 1, buffer.Length - 1);
      if currentHead == tail {
        return None;
      }
      buf := buffer[currentHead];
      buffer[currentHead] := None;
      head := nextHead;
      popped := popped + [buf.value];
      totalDequeued := totalDequeued + 1;
      assert buffer[..] == before.slots[currentHead := None];
      assert View() == DequeueAlone(before);
    }

    method Size() returns (n: nat)
      requires Valid()
      ensures n == |Queued()|
    {
      var h := head;
      var t := tail;
      WrapThenMask(t, h, buffer.Length);
      DepthIsExact(View());
      n := BitAnd((t - h) % TWO_TO_64, buffer.Length - 1);
    }

    method IsEmpty() returns (b: bool)
      requires Valid()
      ensures b <==> Queued() == []
    {
      EmptyIsEmpty(View());
      b := head == tail;
    }

    method IsFull() returns (b: bool)
      requires Valid()
      ensures b <==> |Queued()| == buffer.Length - 1
    {
      FullIsFull(View());
      MaskIsWrap(tail + 1, buffer.Length);
      b := BitAnd(tail + 1, buffer.Length - 1) == head;
    }

    /** Forgets the queued pointers; the buffers they name are not given back. */
    method Clear()
      requires Valid()
      modifies this
      ensures Valid() && Queued() == [] && buffer[..] == old(buffer[..])
      ensures unchanged(this`totalEnqueued, this`totalDequeued, this`enqueueFailures)
    {
      head, tail := 0, 0;
      pushed, popped := [], [];
    }
  }

  /** enqueue without interference. */
  ghost function EnqueueAlone<T>(r: Ring<T>, x: T): Ring<T>
    requires InBounds(r)
  {
    var next := Wrap(r.tail + 1, Size(r));
    if next == r.head then r.(failures := r.failures + 1)
    else r.(slots := r.slots[r.tail := Some(x)], tail := next, pushed := r.pushed + [x], enqueued := r.enqueued + 1)
  }

  /** dequeue without interference. */
  ghost function DequeueAlone<T>(r: Ring<T>): Ring<T>
    requires InBounds(r) && (r.head != r.tail ==> r.slots[r.head].Some?)
  {
    if r.head == r.tail then r
    else r.(slots := r.slots[r.head := None], head := Wrap(r.head + 1, Size(r)),
            popped := r.popped + [r.slots[r.head].value], dequeued := r.dequeued + 1)
  }

  lemma MaskIsWrap(n: nat, size: nat)
    requires IsPowerOfTwo(size)
    ensures BitAnd(n, size - 1) == Wrap(n, size)
  {
    MaskIsModulo(n, size);
    WrapIsModulo(n, size);
  }

  lemma UnrollTwo<T>(r: Ring<T>, a: Action<T>)
    requires InBounds(r)
    ensures Run(r, Solo(2, a)) == Step(Step(r, a).0, a).0
  {
    hide Step, Run, Solo, InBounds;
    RunSolo(r, 2, a);
    RunSolo(Step(r, a).0, 1, a);
    RunSolo(Step(Step(r, a).0, a).0, 0, a);
  }

  lemma UnrollFive<T>(r: Ring<T>, a: Action<T>)
    requires InBounds(r)
    ensures Run(r, Solo(5, a)) == Step(Step(Step(Step(Step(r, a).0, a).0, a).0, a).0, a).0
  {
    hide Step, Run, Solo, InBounds;
    var r1 := Step(r, a).0;
    var r2 := Step(r1, a).0;
    var r3 := Step(r2, a).0;
    RunSolo(r, 5, a);
    RunSolo(r1, 4, a);
    RunSolo(r2, 3, a);
    UnrollTwo(r3, a);
  }

  lemma {:induction false} EnqueueRun<T>(r: Ring<T>, x: T)
    requires InBounds(r) && r.kind.PointerRing? && r.producer.Quiet?
    ensures EnqueueAlone(r, x) == Run(r, Solo(if Wrap(r.tail + 1, Size(r)) == r.head then 2 else 5, Produce(x)))
  {
    hide Wrap, Run, Solo, Step, InBounds;
    if Wrap(r.tail + 1, Size(r)) == r.head {
      UnrollTwo(r, Produce(x));
      RefusedAfterTwo(r, x);
    } else {
      UnrollFive(r, Produce(x));
      StoredAfterThree(r, x);
      PublishedAfterTwo(r.(producer := Stored(x, r.tail), slots := r.slots[r.tail := Some(x)]), x);
    }
  }

  lemma RefusedAfterTwo<T>(r: Ring<T>, x: T)
    requires InBounds(r) && r.producer.Quiet? && Wrap(r.tail + 1, Size(r)) == r.head
    ensures Step(Step(r, Produce(x)).0, Produce(x)).0 == r.(failures := r.failures + 1)
  {
    hide Wrap, ConsumerStep;
  }

  lemma PublishedAfterTwo<T>(r: Ring<T>, x: T)
    requires InBounds(r) && r.kind.PointerRing? && r.producer == Stored(x, r.tail)
    ensures Step(Step(r, Produce(x)).0, Produce(x)).0
            == r.(producer := Quiet, tail := Wrap(r.tail + 1, Size(r)), pushed := r.pushed + [x], enqueued := r.enqueued + 1)
  {
    hide Wrap, ConsumerStep;
  }

  lemma StoredAfterThree<T>(r: Ring<T>, x: T)
    requires InBounds(r) && r.producer.Quiet? && Wrap(r.tail + 1, Size(r)) != r.head
    ensures Step(Step(Step(r, Produce(x)).0, Produce(x)).0, Produce(x)).0
            == r.(producer := Stored(x, r.tail), slots := r.slots[r.tail := Some(x)])
  {
    hide Wrap, ConsumerStep;
    assert Step(r, Produce(x)).0 == r.(producer := HasTail(x, r.tail));
  }

  lemma {:induction false} DequeueRun<T>(r: Ring<T>)
    requires InBounds(r) && r.kind.PointerRing? && r.consumer.Resting?
    requires r.head != r.tail ==> r.slots[r.head].Some?
    ensures DequeueAlone(r) == Run(r, Solo(if r.head == r.tail then 2 else 6, Consume))
  {
    hide Wrap, Run, Solo, ProducerStep;
    if r.head == r.tail {
      UnrollTwo(r, Consume);
    } else {
      var r1 := Step(r, Consume).0;
      RunSolo(r, 6, Consume);
      UnrollFive(r1, Consume);
      TookAfterThree(r);
    }
  }

  lemma TookAfterThree<T>(r: Ring<T>)
    requires InBounds(r) && r.consumer.Resting? && r.head != r.tail && r.slots[r.head].Some?
    ensures Step(Step(Step(r, Consume).0, Consume).0, Consume).0
            == r.(consumer := Took(r.slots[r.head].value, r.head))
  {
    hide Wrap, ProducerStep;
    assert Step(r, Consume).0 == r.(consumer := HasHead(r.head));
  }

  lemma FullIsFull<T>(r: Ring<T>)
    requires Inv(r)
    ensures |Contents(r)| <= Size(r) - 1
    ensures Wrap(r.tail + 1, Size(r)) == r.head <==> |Contents(r)| == Size(r) - 1
  {
    hide LiveSlots, ProducerInv, ConsumerInv;
    FullMeansFull(|r.pushed|, |r.popped|, Size(r));
  }

  lemma EmptyIsEmpty<T>(r: Ring<T>)
    requires Inv(r)
    ensures r.head == r.tail <==> Contents(r) == []
  {
    hide LiveSlots, ProducerInv, ConsumerInv;
    EmptyMeansEmpty(|r.pushed|, |r.popped|, Size(r));
  }

  lemma EnqueueSpec<T>(r: Ring<T>, x: T)
    requires Inv(r) && r.kind.PointerRing? && r.producer.Quiet?
    ensures |Contents(r)| <= Size(r) - 1
    ensures Wrap(r.tail + 1, Size(r)) == r.head <==> |Contents(r)| == Size(r) - 1
    ensures Inv(EnqueueAlone(r, x))
    ensures Contents(EnqueueAlone(r, x)) == if |Contents(r)| < Size(r) - 1 then Contents(r) + [x] else Contents(r)
  {
    hide LiveSlots, Run, Solo, Wrap;
    EnqueueRun(r, x);
    RunRefines(r, Solo(if Wrap(r.tail + 1, Size(r)) == r.head then 2 else 5, Produce(x)));
    FullIsFull(r);
    assert Contents(EnqueueAlone(r, x)) == if |Contents(r)| < Size(r) - 1 then Contents(r) + [x] else Contents(r);
  }

  lemma DequeueSpec<T>(r: Ring<T>)
    requires Inv(r) && r.kind.PointerRing? && r.consumer.Resting?
    ensures r.head == r.tail <==> Contents(r) == []
    ensures r.head != r.tail ==> r.slots[r.head] == Some(Contents(r)[0])
    ensures Inv(DequeueAlone(r))
    ensures Contents(r) == (if r.head == r.tail then [] else [Contents(r)[0]]) + Contents(DequeueAlone(r))
  {
    hide Run, Solo, Wrap;
    EmptyIsEmpty(r);
    DequeueRun(r);
    RunRefines(r, Solo(if r.head == r.tail then 2 else 6, Consume));
  }
}

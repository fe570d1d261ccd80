/**
 Who holds each buffer: in every reachable state of the pipeline every buffer of the pool is in exactly
 one of the free stack, the subscriber's hand, the queue and the worker's hand.
 */
module Ownership {
  import opened Bytes
  import opened Wrappers
  import opened SpscRing
  import opened BufferPools
  import opened Pipeline
  import MessageFrame
  import SeenFilter
  import Tracking

  /** The buffer the subscriber has taken and not yet handed over or given back. */
  function SubscriberHand(s: State): seq<nat> {
    match s.subscriber
    case Filling(_, buf) => [buf]
    case Checking(_, buf) => [buf]
    case Enqueuing(_, buf) => if s.ring.producer.Published? then [] else [buf]
    case Dropping(buf, _) => [buf]
    case Freeing(buf, _, _) => [buf]
    case _ => []
  }

  function WorkerHand(s: State): seq<nat> {
    match s.worker
    case Dequeuing => if s.ring.consumer.Released? && s.ring.popped != [] then [s.ring.popped[|s.ring.popped| - 1]] else []
    case Holding(pointer) => if pointer.Some? then [pointer.value] else []
    case Deciding(buf) => [buf]
    case Processing(buf) => [buf]
    case Releasing(buf, _) => [buf]
    case Returning(buf, _, _) => [buf]
    case _ => []
  }

  ghost predicate BusyWith(p: Producer<nat>, buf: nat) {
    match p
    case HasTail(x, _) => x == buf
    case HasRoom(x, _) => x == buf
    case Stored(x, _) => x == buf
    case _ => true
  }

  /** Each thread is inside a queue operation only while its own position says so. */
  ghost function Shaped(st: Settings, s: State): (b: bool)
    ensures b ==> WellTyped(s)
  {
    && WellTyped(s)
    && |s.pool.list| == st.poolSize && Size(s.ring) == st.ringSize && |s.memory| == st.poolSize
    && s.ring.kind.PointerRing? && SpscRing.Inv(s.ring) && Counted(s.ring)
    && (if s.subscriber.Enqueuing? then BusyWith(s.ring.producer, s.subscriber.buf) else s.ring.producer.Quiet?)
    && (!s.worker.Dequeuing? ==> s.ring.consumer.Resting?)
    && (s.ring.consumer.Released? ==> s.ring.popped != [])
    && (s.worker.Holding? ==> s.worker.pointer.Some?)
    && (s.worker.Sizing? ==> s.worker.head == s.ring.head)
  }

  ghost predicate Partitioned(st: Settings, s: State)
    requires WellTyped(s)
  {
    multiset(FreeStack(s.pool)) + multiset(Contents(s.ring)) + multiset(SubscriberHand(s)) + multiset(WorkerHand(s))
    == multiset(AllBuffers(st.poolSize))
  }

  // ----- what one ring step can do, as the pipeline sees it -----

  lemma ProducerEffect(r: Ring<nat>, buf: nat)
    requires SpscRing.Inv(r) && Counted(r) && r.kind.PointerRing? && BusyWith(r.producer, buf)
    ensures var (r', e) := ProducerStep(r, buf);
            && SpscRing.Inv(r') && Counted(r') && r'.kind.PointerRing? && BusyWith(r'.producer, buf)
            && r'.consumer == r.consumer && r'.popped == r.popped && r'.dequeued == r.dequeued && r'.head == r.head
            && (e.Silent? || e.Full? || e.Pushed?)
            && (e.Pushed? ==> r'.pushed == r.pushed + [buf] && Contents(r') == Contents(r) + [buf]
                              && r'.producer.Published? && !r.producer.Published? && r'.enqueued == r.enqueued)
            && (!e.Pushed? ==> r'.pushed == r.pushed && Contents(r') == Contents(r))
            && r'.failures == r.failures + (if e.Full? then 1 else 0)
            && (e.Full? ==> r'.producer.Quiet? && |Contents(r)| == Size(r) - 1 && !r.producer.Published?)
            && (e.Silent? ==> (r'.producer.Quiet? <==> r.producer.Published?) && !r'.producer.Published?)
  {
    hide Wrap, LiveSlots, ConsumerInv;
    ProducerRefines(r, buf);
    StepCounted(r, Produce(buf));
  }

  lemma ConsumerEffect(r: Ring<nat>)
    requires SpscRing.Inv(r) && Counted(r) && r.kind.PointerRing?
    ensures var (r', e) := ConsumerStep(r);
            && SpscRing.Inv(r') && Counted(r') && r'.kind.PointerRing?
            && r'.producer == r.producer && r'.pushed == r.pushed && r'.enqueued == r.enqueued && r'.failures == r.failures
            && (e.Silent? || e.Empty? || e.Popped?)
            && (e.Popped? ==> Contents(r) != [] && r'.popped == r.popped + [Contents(r)[0]]
                              && Contents(r) == [Contents(r)[0]] + Contents(r')
                              && r'.consumer.Released? && !r.consumer.Released?)
            && (!e.Popped? ==> r'.popped == r.popped && Contents(r') == Contents(r))
            && (e.Empty? ==> Contents(r) == [] && r'.consumer.Resting? && !r.consumer.Released?)
            && (e.Silent? ==> (r'.consumer.Resting? <==> r.consumer.Released?) && !r'.consumer.Released?)
  {
    hide Wrap, LiveSlots, ProducerInv;
    ConsumerRefines(r);
    StepCounted(r, Consume);
  }

  // ----- preservation -----

  lemma EnqueuingShaped(st: Settings, s: State, f: Fragment, glitch: bool)
    requires Shaped(st, s) && s.subscriber.Enqueuing?
    ensures Shaped(st, SubscriberStep(st, s, f, glitch))
  {
    hide SpscRing.Inv, Counted, ProducerStep, InBounds, Tracking.Sound, Read, BusyWith, AllocTurn, FreeTurn,
      Tracking.OnArrival;
    ProducerEffect(s.ring, s.subscriber.buf);
  }

  lemma SubscriberLocalShaped(st: Settings, s: State, f: Fragment, glitch: bool)
    requires Shaped(st, s) && !s.subscriber.Enqueuing?
    ensures Shaped(st, SubscriberStep(st, s, f, glitch))
  {
    hide SpscRing.Inv, Counted, ProducerStep, InBounds, Tracking.OnArrival, Tracking.Sound, Write, Read, Received,
      MessageFrame.MessageNumber;
  }

  lemma SubscriberShaped(st: Settings, s: State, f: Fragment, glitch: bool)
    requires Shaped(st, s)
    ensures Shaped(st, SubscriberStep(st, s, f, glitch))
  {
    hide Shaped, SubscriberStep;
    if s.subscriber.Enqueuing? {
      EnqueuingShaped(st, s, f, glitch);
    } else {
      SubscriberLocalShaped(st, s, f, glitch);
    }
  }

  lemma WorkerShaped(st: Settings, s: State, glitch: bool)
    requires Shaped(st, s)
    ensures Shaped(st, WorkerStep(st, s, glitch))
  {
    hide SpscRing.Inv, Counted, ConsumerStep, SeenFilter.Check, BusyWith, InBounds;
    if s.worker.Dequeuing? {
      ConsumerEffect(s.ring);
    }
  }

  lemma {:induction false} AllBuffersOnce(n: nat, b: nat)
    ensures multiset(AllBuffers(n))[b] == if b < n then 1 else 0
  {
    if n > 0 {
      AllBuffersOnce(n - 1, b);
      assert AllBuffers(n) == AllBuffers(n - 1) + [n - 1];
    }
  }

  /** The four places together hold as many buffers as the pool has. */
  lemma PartitionSize(st: Settings, s: State)
    requires WellTyped(s) && Partitioned(st, s)
    ensures s.pool.count + |Contents(s.ring)| + |SubscriberHand(s)| + |WorkerHand(s)| == st.poolSize
  {
    hide Contents, SubscriberHand, WorkerHand;
    var whole := multiset(FreeStack(s.pool)) + multiset(Contents(s.ring)) + multiset(SubscriberHand(s)) + multiset(WorkerHand(s));
    assert |whole| == |FreeStack(s.pool)| + |Contents(s.ring)| + |SubscriberHand(s)| + |WorkerHand(s)|;
    assert |multiset(AllBuffers(st.poolSize))| == st.poolSize;
  }

  lemma AllocMoves(p: Pool<nat>, expected: nat, glitch: bool)
    requires WithinPool(p)
    ensures var (p', outcome) := AllocTurn(p, expected, glitch);
            multiset(FreeStack(p)) == multiset(FreeStack(p')) + if outcome.Got? then multiset{outcome.buf} else multiset{}
  {
    var (p', outcome) := AllocTurn(p, expected, glitch);
    if outcome.Got? {
      AllocPops(p, expected, glitch);
    }
  }

  lemma FreeMoves(p: Pool<nat>, expected: nat, buf: nat, glitch: bool)
    requires WithinPool(p)
    ensures var (p', outcome) := FreeTurn(p, expected, buf, glitch);
            multiset(FreeStack(p')) == multiset(FreeStack(p)) + if outcome.Freed? then multiset{buf} else multiset{}
  {
    var (p', outcome) := FreeTurn(p, expected, buf, glitch);
    if outcome.Freed? {
      FreePushes(p, expected, buf, glitch);
    }
  }

  /** A thread returning a buffer loaded a count that leaves room for it. */
  ghost predicate RoomToReturn(st: Settings, s: State) {
    && (s.subscriber.Freeing? ==> s.subscriber.expected < st.poolSize)
    && (s.worker.Returning? ==> s.worker.expected < st.poolSize)
    && s.overflows == 0
  }

  /** The ring can refuse only when it has no more slots than the pool has buffers. */
  ghost predicate NeverRefused(st: Settings, s: State) {
    st.poolSize < st.ringSize ==>
      && s.queueFull == 0 && s.ring.failures == 0
      && (s.subscriber.Dropping? ==> s.subscriber.why.Duplicate?)
      && (s.subscriber.Freeing? ==> s.subscriber.why.Duplicate?)
  }

  ghost function Owned(st: Settings, s: State): (b: bool)
    ensures b ==> WellTyped(s)
  {
    Shaped(st, s) && Partitioned(st, s) && RoomToReturn(st, s) && NeverRefused(st, s)
  }

  lemma AllocatingPartitioned(st: Settings, s: State, f: Fragment, glitch: bool)
    requires Shaped(st, s) && Partitioned(st, s) && s.subscriber.Allocating?
    ensures Partitioned(st, SubscriberStep(st, s, f, glitch))
  {
    hide Shaped, InBounds, Contents, FreeStack, AllBuffers, WorkerHand;
    AllocMoves(s.pool, s.subscriber.expected, glitch);
    assert WorkerHand(SubscriberStep(st, s, f, glitch)) == WorkerHand(s) by { SameWorkerHand(s, SubscriberStep(st, s, f, glitch)); }
  }

  lemma SameWorkerHand(s: State, s': State)
    requires s'.worker == s.worker && s'.ring.consumer == s.ring.consumer && s'.ring.popped == s.ring.popped
    ensures WorkerHand(s') == WorkerHand(s)
  {
  }

  lemma SameSubscriberHand(s: State, s': State)
    requires s'.subscriber == s.subscriber && s'.ring.producer == s.ring.producer
    ensures SubscriberHand(s') == SubscriberHand(s)
  {
  }

  lemma SubscriberFreeingPartitioned(st: Settings, s: State, f: Fragment, glitch: bool)
    requires Shaped(st, s) && Partitioned(st, s) && RoomToReturn(st, s) && s.subscriber.Freeing?
    ensures Partitioned(st, SubscriberStep(st, s, f, glitch))
  {
    hide InBounds, Contents, FreeStack, AllBuffers, WorkerHand, SpscRing.Inv, Counted, Tracking.Sound;
    FreeMoves(s.pool, s.subscriber.expected, s.subscriber.buf, glitch);
    SameWorkerHand(s, SubscriberStep(st, s, f, glitch));
  }

  lemma ShapeFacts(st: Settings, s: State)
    requires Shaped(st, s)
    ensures SpscRing.Inv(s.ring) && Counted(s.ring) && s.ring.kind.PointerRing?
    ensures s.subscriber.Enqueuing? ==> BusyWith(s.ring.producer, s.subscriber.buf)
  {
    hide SpscRing.Inv, Counted, BusyWith;
  }

  lemma EnqueuingPartitioned(st: Settings, s: State, f: Fragment, glitch: bool)
    requires Shaped(st, s) && Partitioned(st, s) && s.subscriber.Enqueuing?
    ensures Partitioned(st, SubscriberStep(st, s, f, glitch))
  {
    hide Shaped, InBounds, Contents, FreeStack, AllBuffers, WorkerHand, ProducerStep, SpscRing.Inv, Counted, BusyWith,
      Read, Tracking.Sound;
    ShapeFacts(st, s);
    ProducerEffect(s.ring, s.subscriber.buf);
    SameWorkerHand(s, SubscriberStep(st, s, f, glitch));
  }

  lemma SamePartition(st: Settings, s: State, s': State)
    requires WellTyped(s) && WellTyped(s') && Partitioned(st, s)
    requires s'.pool == s.pool && s'.ring == s.ring && SubscriberHand(s') == SubscriberHand(s)
    requires WorkerHand(s') == WorkerHand(s)
    ensures Partitioned(st, s')
  {
    hide FreeStack, Contents, SubscriberHand, WorkerHand, AllBuffers, InBounds, Tracking.Sound;
  }

  lemma SubscriberLocalPartitioned(st: Settings, s: State, f: Fragment, glitch: bool)
    requires Shaped(st, s) && Partitioned(st, s)
    requires !s.subscriber.Allocating? && !s.subscriber.Freeing? && !s.subscriber.Enqueuing?
    ensures Partitioned(st, SubscriberStep(st, s, f, glitch))
  {
    hide Partitioned, InBounds, WorkerHand, ProducerStep, AllocTurn, FreeTurn, SpscRing.Inv, Counted,
      Tracking.OnArrival, Tracking.Sound, Read, Write, Received, MessageFrame.MessageNumber;
    var s' := SubscriberStep(st, s, f, glitch);
    SameWorkerHand(s, s');
    SamePartition(st, s, s');
  }

  lemma SubscriberPartitioned(st: Settings, s: State, f: Fragment, glitch: bool)
    requires Shaped(st, s) && Partitioned(st, s) && RoomToReturn(st, s)
    ensures Partitioned(st, SubscriberStep(st, s, f, glitch))
  {
    hide Shaped, Partitioned, RoomToReturn, SubscriberStep;
    match s.subscriber {
      case Allocating(_, _) => AllocatingPartitioned(st, s, f, glitch);
      case Freeing(_, _, _) => SubscriberFreeingPartitioned(st, s, f, glitch);
      case Enqueuing(_, _) => EnqueuingPartitioned(st, s, f, glitch);
      case _ => SubscriberLocalPartitioned(st, s, f, glitch);
    }
  }

  lemma DequeuingMoves(st: Settings, s: State, glitch: bool)
    requires Shaped(st, s) && s.worker.Dequeuing?
    ensures var s' := WorkerStep(st, s, glitch);
            && s'.pool == s.pool && s'.subscriber == s.subscriber && s'.ring.producer == s.ring.producer
            && multiset(Contents(s.ring)) + multiset(WorkerHand(s)) == multiset(WorkerHand(s')) + multiset(Contents(s'.ring))
  {
    hide InBounds, Contents, ConsumerStep, SpscRing.Inv, Counted, BusyWith, Tracking.Sound;
    ConsumerEffect(s.ring);
    var s' := WorkerStep(st, s, glitch);
    if |s'.ring.popped| > |s.ring.popped| {
      assert multiset(Contents(s.ring)) == multiset{Contents(s.ring)[0]} + multiset(Contents(s'.ring));
    }
  }

  lemma DequeuingPartitioned(st: Settings, s: State, glitch: bool)
    requires Shaped(st, s) && Partitioned(st, s) && s.worker.Dequeuing?
    ensures Partitioned(st, WorkerStep(st, s, glitch))
  {
    hide Shaped, Contents, FreeStack, AllBuffers, SubscriberHand, WorkerHand, WorkerStep;
    var s' := WorkerStep(st, s, glitch);
    DequeuingMoves(st, s, glitch);
    SameSubscriberHand(s, s');
    Regroup(multiset(FreeStack(s.pool)), multiset(SubscriberHand(s)),
            multiset(Contents(s.ring)), multiset(WorkerHand(s)), multiset(Contents(s'.ring)), multiset(WorkerHand(s')));
  }

  lemma Regroup<T>(a: multiset<T>, b: multiset<T>, c: multiset<T>, d: multiset<T>, c': multiset<T>, d': multiset<T>)
    requires c + d == d' + c'
    ensures a + c + b + d == a + c' + b + d'
  {
    assert a + c + b + d == a + b + (c + d);
    assert a + c' + b + d' == a + b + (d' + c');
  }

  lemma ReturningPartitioned(st: Settings, s: State, glitch: bool)
    requires Shaped(st, s) && Partitioned(st, s) && RoomToReturn(st, s) && s.worker.Returning?
    ensures Partitioned(st, WorkerStep(st, s, glitch))
  {
    hide InBounds, Contents, FreeStack, AllBuffers, SubscriberHand, SpscRing.Inv, Counted, BusyWith, Tracking.Sound;
    FreeMoves(s.pool, s.worker.expected, s.worker.held, glitch);
    SameSubscriberHand(s, WorkerStep(st, s, glitch));
  }

  lemma WorkerLocalPartitioned(st: Settings, s: State, glitch: bool)
    requires Shaped(st, s) && Partitioned(st, s) && !s.worker.Dequeuing? && !s.worker.Returning?
    ensures Partitioned(st, WorkerStep(st, s, glitch))
  {
    hide Partitioned, InBounds, SubscriberHand, ConsumerStep, FreeTurn, SpscRing.Inv, Counted, BusyWith,
      SeenFilter.Check, Key, Read, Tracking.Sound;
    var s' := WorkerStep(st, s, glitch);
    SameSubscriberHand(s, s');
    SamePartition(st, s, s');
  }

  lemma WorkerPartitioned(st: Settings, s: State, glitch: bool)
    requires Shaped(st, s) && Partitioned(st, s) && RoomToReturn(st, s)
    ensures Partitioned(st, WorkerStep(st, s, glitch))
  {
    hide Shaped, Partitioned, RoomToReturn, WorkerStep;
    match s.worker {
      case Dequeuing => DequeuingPartitioned(st, s, glitch);
      case Returning(_, _, _) => ReturningPartitioned(st, s, glitch);
      case _ => WorkerLocalPartitioned(st, s, glitch);
    }
  }

  lemma SubscriberBounds(st: Settings, s: State, f: Fragment, glitch: bool)
    requires Owned(st, s)
    ensures RoomToReturn(st, SubscriberStep(st, s, f, glitch)) && NeverRefused(st, SubscriberStep(st, s, f, glitch))
  {
    hide InBounds, Contents, WorkerHand, ProducerStep, AllocTurn, SpscRing.Inv, Counted, Partitioned,
      Tracking.OnArrival, Tracking.Sound, Read, Write, Received, MessageFrame.MessageNumber;
    PartitionSize(st, s);
    if s.subscriber.Enqueuing? {
      ProducerEffect(s.ring, s.subscriber.buf);
    }
  }

  lemma WorkerBounds(st: Settings, s: State, glitch: bool)
    requires Owned(st, s)
    ensures RoomToReturn(st, WorkerStep(st, s, glitch)) && NeverRefused(st, WorkerStep(st, s, glitch))
  {
    hide InBounds, Contents, SubscriberHand, ConsumerStep, SpscRing.Inv, Counted, BusyWith, Partitioned,
      SeenFilter.Check, Key, Read, Tracking.Sound;
    PartitionSize(st, s);
    if s.worker.Dequeuing? {
      ConsumerEffect(s.ring);
    }
  }

  lemma StepOwned(st: Settings, s: State, turn: Turn)
    requires Owned(st, s)
    ensures Owned(st, Pipeline.Step(st, s, turn))
  {
    hide Shaped, Partitioned, RoomToReturn, NeverRefused, SubscriberStep, WorkerStep;
    match turn {
      case Subscribe(f, glitch) =>
        SubscriberShaped(st, s, f, glitch);
        SubscriberPartitioned(st, s, f, glitch);
        SubscriberBounds(st, s, f, glitch);
      case Work(glitch) =>
        WorkerShaped(st, s, glitch);
        WorkerPartitioned(st, s, glitch);
        WorkerBounds(st, s, glitch);
    }
  }

  lemma InitOwned(st: Settings)
    requires st.ringSize >= 2
    ensures Owned(st, Pipeline.Init(st))
  {
    InitInv<nat>(PointerRing, st.ringSize);
    var s := Pipeline.Init(st);
    assert FreeStack(s.pool) == AllBuffers(st.poolSize);
  }

  /** Ownership holds in every reachable state, whatever the interleaving. */
  lemma {:induction false} RunOwned(st: Settings, schedule: seq<Turn>)
    requires st.ringSize >= 2
    ensures Owned(st, Pipeline.Run(st, schedule))
    decreases |schedule|
  {
    hide Owned, Pipeline.Step, Pipeline.Init;
    if schedule == [] {
      InitOwned(st);
    } else {
      RunOwned(st, schedule[..|schedule| - 1]);
      StepOwned(st, Pipeline.Run(st, schedule[..|schedule| - 1]), schedule[|schedule| - 1]);
    }
  }
}

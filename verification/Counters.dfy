/**
 The pipeline's statistics: what each counter owes the others in every reachable state.
 */
module Counters {
  import opened Bytes
  import opened MessageFrame
  import opened Wrappers
  import opened SpscRing
  import opened BufferPools
  import opened Pipeline
  import opened Ownership
  import opened Delivery
  import SeenFilter
  import Tracking

  function One(b: bool): nat {
    if b then 1 else 0
  }

  /** Every fragment is given up for want of a buffer, checked, or on its way to the check. */
  ghost predicate FragmentsAddUp(s: State) {
    && s.fragments == s.allocationFailures + |s.checked|
                      + One(s.subscriber.Allocating? || s.subscriber.Filling? || s.subscriber.Checking?)
    && s.pool.failures == s.allocationFailures
  }

  /** Every checked message is a duplicate, refused, published, or on its way to the queue. */
  ghost predicate ChecksAddUp(s: State) {
    |s.checked| == s.tracker.duplicates + s.queueFull + |s.sent|
                   + One(s.subscriber.Enqueuing? && !s.ring.producer.Published?)
                   + One((s.subscriber.Dropping? || s.subscriber.Freeing?) && s.subscriber.why.NoRoom?)
  }

  /** Every message taken from the queue is processed, a duplicate, invalid, or in the worker's hand. */
  ghost predicate TakenAddUp(s: State) {
    && |s.ring.popped| == s.processedCount + s.invalid + s.workerDuplicates
                          + One((s.worker.Dequeuing? && s.ring.consumer.Released?)
                                || s.worker.Holding? || s.worker.Deciding? || s.worker.Processing?
                                || ((s.worker.Releasing? || s.worker.Returning?) && s.worker.done))
    && s.invalid == 0
    && |s.processed| == s.processedCount + One((s.worker.Releasing? || s.worker.Returning?) && s.worker.done)
  }

  ghost predicate PoolAddsUp(st: Settings, s: State) {
    s.pool.allocations - s.pool.deallocations == st.poolSize - s.pool.count
  }

  ghost predicate Balanced(st: Settings, s: State) {
    FragmentsAddUp(s) && ChecksAddUp(s) && TakenAddUp(s) && PoolAddsUp(st, s)
  }

  lemma SubscriberFragments(st: Settings, s: State, f: Fragment, glitch: bool)
    requires WellTyped(s) && FragmentsAddUp(s)
    ensures FragmentsAddUp(SubscriberStep(st, s, f, glitch))
  {
    hide InBounds, Tracking.Sound, Tracking.OnArrival, ProducerStep, Received, Read, Write, MessageNumber;
  }

  lemma SubscriberChecks(st: Settings, s: State, f: Fragment, glitch: bool)
    requires Owned(st, s) && ChecksAddUp(s)
    ensures ChecksAddUp(SubscriberStep(st, s, f, glitch))
  {
    hide Owned, InBounds, Tracking.Sound, Tracking.OnArrival, ProducerStep, Received, Read, Write, MessageNumber,
      SpscRing.Inv, Counted,
      BusyWith, Contents;
    RingFacts(st, s);
    match s.subscriber {
      case Checking(fragment, buf) =>
        Tracking.RejectionCounts(st.tracking, s.tracker, Tracking.Arrival(MessageNumber(Read(s, buf)), fragment.found));
      case Enqueuing(_, buf) => ProducerEffect(s.ring, buf);
      case Freeing(_, _, _) => RoomFacts(st, s);
      case _ =>
    }
  }

  lemma RoomFacts(st: Settings, s: State)
    requires Owned(st, s)
    ensures RoomToReturn(st, s) && |s.pool.list| == st.poolSize
  {
    hide Partitioned, NeverRefused, SpscRing.Inv, Counted, BusyWith;
  }

  lemma SubscriberPool(st: Settings, s: State, f: Fragment, glitch: bool)
    requires WellTyped(s) && PoolAddsUp(st, s)
    ensures PoolAddsUp(st, SubscriberStep(st, s, f, glitch))
  {
    hide InBounds, Tracking.Sound, Tracking.OnArrival, ProducerStep, Received, Read, Write, MessageNumber;
  }

  lemma SubscriberTaken(st: Settings, s: State, f: Fragment, glitch: bool)
    requires Owned(st, s) && TakenAddUp(s)
    ensures TakenAddUp(SubscriberStep(st, s, f, glitch))
  {
    hide Owned, InBounds, Tracking.Sound, Tracking.OnArrival, ProducerStep, Received, Read, Write, MessageNumber,
      SpscRing.Inv, Counted,
      BusyWith, Contents, AllocTurn, FreeTurn;
    RingFacts(st, s);
    if s.subscriber.Enqueuing? {
      ProducerEffect(s.ring, s.subscriber.buf);
    }
  }

  lemma WorkerTaken(st: Settings, s: State, glitch: bool)
    requires Owned(st, s) && TakenAddUp(s)
    ensures TakenAddUp(WorkerStep(st, s, glitch))
  {
    hide Owned, InBounds, Tracking.Sound, ConsumerStep, SeenFilter.Check, Key, Read, SpscRing.Inv, Counted, BusyWith,
      Contents;
    RingFacts(st, s);
    if s.worker.Dequeuing? {
      ConsumerEffect(s.ring);
    }
  }

  lemma WorkerPool(st: Settings, s: State, glitch: bool)
    requires WellTyped(s) && PoolAddsUp(st, s)
    ensures PoolAddsUp(st, WorkerStep(st, s, glitch))
  {
    hide InBounds, Tracking.Sound, ConsumerStep, SeenFilter.Check, Key, Read;
  }

  lemma WorkerSpares(st: Settings, s: State, glitch: bool)
    requires Owned(st, s) && FragmentsAddUp(s) && ChecksAddUp(s)
    ensures FragmentsAddUp(WorkerStep(st, s, glitch)) && ChecksAddUp(WorkerStep(st, s, glitch))
  {
    hide Owned, InBounds, Tracking.Sound, ConsumerStep, SeenFilter.Check, Key, Read, SpscRing.Inv, Counted, BusyWith,
      Contents;
    RingFacts(st, s);
    if s.worker.Dequeuing? {
      ConsumerEffect(s.ring);
    }
  }

  lemma StepBalanced(st: Settings, s: State, turn: Turn)
    requires Owned(st, s) && Balanced(st, s)
    ensures Balanced(st, Pipeline.Step(st, s, turn))
  {
    hide Owned, FragmentsAddUp, ChecksAddUp, TakenAddUp, PoolAddsUp, SubscriberStep, WorkerStep;
    match turn {
      case Subscribe(f, glitch) =>
        SubscriberFragments(st, s, f, glitch);
        SubscriberChecks(st, s, f, glitch);
        SubscriberTaken(st, s, f, glitch);
        SubscriberPool(st, s, f, glitch);
      case Work(glitch) =>
        WorkerSpares(st, s, glitch);
        WorkerTaken(st, s, glitch);
        WorkerPool(st, s, glitch);
    }
  }

  lemma {:induction false} RunBalanced(st: Settings, schedule: seq<Turn>)
    requires st.ringSize >= 2
    ensures Balanced(st, Pipeline.Run(st, schedule))
    decreases |schedule|
  {
    hide Owned, Pipeline.Step;
    if schedule != [] {
      hide Balanced;
      RunBalanced(st, schedule[..|schedule| - 1]);
      RunOwned(st, schedule[..|schedule| - 1]);
      StepBalanced(st, Pipeline.Run(st, schedule[..|schedule| - 1]), schedule[|schedule| - 1]);
    }
  }

  /** Both threads are between messages: no buffer in hand, no queue operation's bookkeeping pending. */
  predicate BetweenMessages(s: State) {
    s.subscriber.Polling? && (s.worker.Looping? || s.worker.Sizing?)
  }

  lemma BalancedAtRest(st: Settings, s: State)
    requires Owned(st, s) && Balanced(st, s) && Reported(s) && |s.sent| == |s.ring.pushed| && BetweenMessages(s)
    ensures s.fragments == s.allocationFailures + s.tracker.duplicates + s.queueFull + s.received
    ensures s.received == s.ring.enqueued == s.ring.dequeued + |Contents(s.ring)|
    ensures s.ring.dequeued == s.processedCount + s.invalid + s.workerDuplicates && s.processedCount == |s.processed|
    ensures s.pool.allocations - s.pool.deallocations == st.poolSize - s.pool.count == |Contents(s.ring)|
  {
    hide Shaped, SpscRing.Inv, Counted, BusyWith, Contents, RoomToReturn, NeverRefused;
    RingFacts(st, s);
    RestingCounts(s.ring);
    PartitionSize(st, s);
    assert SubscriberHand(s) == [] && WorkerHand(s) == [];
  }

  lemma RestingCounts(r: Ring<nat>)
    requires SpscRing.Inv(r) && Counted(r) && r.producer.Quiet? && r.consumer.Resting?
    ensures r.enqueued == |r.pushed| && r.dequeued == |r.popped| && |Contents(r)| == |r.pushed| - |r.popped|
  {
    hide LiveSlots, ProducerInv, ConsumerInv;
  }

  /** Counter conservation in every reachable state in which both threads are between messages. */
  lemma {:induction false} CounterConservation(st: Settings, schedule: seq<Turn>)
    requires st.ringSize >= 2 && BetweenMessages(Pipeline.Run(st, schedule))
    ensures var s := Pipeline.Run(st, schedule);
            && s.fragments == s.allocationFailures + s.tracker.duplicates + s.queueFull + s.received
            && s.received == s.ring.enqueued == s.ring.dequeued + |Contents(s.ring)|
            && s.ring.dequeued == s.processedCount + s.invalid + s.workerDuplicates
            && s.processedCount == |s.processed|
            && s.pool.allocations - s.pool.deallocations == st.poolSize - s.pool.count == |Contents(s.ring)|
  {
    hide Owned, Balanced, Reported, Contents, Filtered, Tracked, Read, WorkerHand, HandedOver;
    RunInvariant(st, schedule);
    RunBalanced(st, schedule);
    BalancedAtRest(st, Pipeline.Run(st, schedule));
  }

  /**
   And while they are busy, each ledger is out by at most the message each thread has in hand: one for a
   ledger one thread keeps, one either way for the queue's, two for the pool's.
   */
  lemma {:induction false} CountersLagByOne(st: Settings, schedule: seq<Turn>)
    requires st.ringSize >= 2
    ensures var s := Pipeline.Run(st, schedule);
            && 0 <= s.fragments - s.allocationFailures - s.tracker.duplicates - s.queueFull - s.received <= 1
            && 0 <= s.ring.enqueued - s.received <= 1
            && -1 <= s.ring.enqueued - s.ring.dequeued - |Contents(s.ring)| <= 1
            && 0 <= s.ring.dequeued - s.processedCount - s.workerDuplicates <= 1
            && s.pool.allocations - s.pool.deallocations == st.poolSize - s.pool.count
            && 0 <= s.pool.allocations - s.pool.deallocations - |Contents(s.ring)| <= 2
  {
    hide Pipeline.Run, Shaped, Partitioned, SpscRing.Inv, Counted, Filtered, Tracked, Contents, NeverRefused,
      RoomToReturn, Read;
    var s := Pipeline.Run(st, schedule);
    RunInvariant(st, schedule);
    RunBalanced(st, schedule);
    RingFacts(st, s);
    PartitionSize(st, s);
    BusyCounts(s.ring);
  }

  lemma BusyCounts(r: Ring<nat>)
    requires SpscRing.Inv(r) && Counted(r)
    ensures r.enqueued <= |r.pushed| <= r.enqueued + 1 && r.dequeued <= |r.popped| <= r.dequeued + 1
    ensures |Contents(r)| == |r.pushed| - |r.popped|
    ensures |r.pushed| == r.enqueued + 1 <==> r.producer.Published?
    ensures |r.popped| == r.dequeued + 1 <==> r.consumer.Released?
  {
    hide LiveSlots, ProducerInv, ConsumerInv;
  }

  /**
   validateMessage never turns a message away: none is ever counted invalid, and all that were taken are
   processed, repeats, or the one in hand.
   */
  lemma {:induction false} NothingInvalid(st: Settings, schedule: seq<Turn>)
    requires st.ringSize >= 2
    ensures var s := Pipeline.Run(st, schedule);
            s.invalid == 0 && 0 <= |s.ring.popped| - s.processedCount - s.workerDuplicates <= 1
  {
    hide Pipeline.Run, FragmentsAddUp, ChecksAddUp, PoolAddsUp;
    RunBalanced(st, schedule);
  }
}

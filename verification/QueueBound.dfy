/**
 When the queue can refuse a message: the pool's and the ring's sizes decide it exactly.
 */
module QueueBound {
  import opened Bytes
  import opened MessageFrame
  import opened Wrappers
  import opened SpscRing
  import opened BufferPools
  import opened Pipeline
  import opened Ownership
  import opened Delivery
  import Guarantees
  import SeenFilter
  import Tracking

  /** The k-th of a stream of empty messages numbered from 0. */
  function Numbered(k: nat): Fragment {
    Fragment(Frame(k, 0, 0, []), if k < TWO_TO_63 - 1 then k + 1 else 0, 0, true)
  }

  function FirstNumbered(n: nat): (fragments: seq<Fragment>)
    ensures |fragments| == n
  {
    seq(n, k requires 0 <= k < n => Numbered(k))
  }

  lemma NumberReceived(k: nat)
    requires k < TWO_TO_63
    ensures MessageNumber(Received(Numbered(k))) == k
  {
    hide Frame, Parse, FromAeron, Stamped;
    FrameNumber(k, 0, 0, []);
    StampKeepsRest(FromAeron(Numbered(k).data), 0);
  }

  /** A new number passes the window. */
  lemma NextPasses(st: Settings, k: nat)
    requires k < TWO_TO_63
    ensures Tracking.OnArrival(st.tracking, TrackerAfter(st, FirstNumbered(k)), ArrivalOf(Numbered(k))).1
  {
    hide Received, Frame, Tracking.OnArrival, Tracking.After, Tracking.Accepted, MessageNumber;
    NumberReceived(k);
    forall i: nat | i < k
      ensures MessageNumber(Received(Numbered(i))) == i
    {
      NumberReceived(i);
    }
    assert Arrivals(FirstNumbered(k)) == SeenFilter.Arrivals(SeenFilter.Count(k));
    SeenFilter.CountAccepted(st.tracking, k);
    Tracking.RejectedIff(st.tracking, Arrivals(FirstNumbered(k)), ArrivalOf(Numbered(k)));
  }

  /** n turns of one thread alone. */
  function Turns(turn: Turn, n: nat): (turns: seq<Turn>)
    ensures |turns| == n
  {
    seq(n, _ => turn)
  }

  function Alone(f: Fragment, n: nat): seq<Turn> {
    Turns(Subscribe(f, false), n)
  }

  lemma TurnNext(st: Settings, schedule: seq<Turn>, turn: Turn, n: nat)
    requires st.ringSize >= 2
    ensures Pipeline.Run(st, schedule + Turns(turn, n + 1)) == Pipeline.Step(st, Pipeline.Run(st, schedule + Turns(turn, n)), turn)
  {
    hide Pipeline.Step;
    var whole := schedule + Turns(turn, n + 1);
    assert whole[..|whole| - 1] == schedule + Turns(turn, n);
  }

  lemma RunNext(st: Settings, schedule: seq<Turn>, f: Fragment, n: nat)
    requires st.ringSize >= 2
    ensures Pipeline.Run(st, schedule + Alone(f, n + 1)) == SubscriberStep(st, Pipeline.Run(st, schedule + Alone(f, n)), f, false)
  {
    hide SubscriberStep, Pipeline.Run, Turns;
    TurnNext(st, schedule, Subscribe(f, false), n);
  }

  /**
   k messages sent, the subscriber between messages; the worker idle, or with the first message taken
   and not yet looked at.
   */
  ghost predicate Loaded(st: Settings, s: State, k: nat, taken: bool) {
    && s.subscriber.Polling? && s.pool.count == st.poolSize - k && s.checked == FirstNumbered(k)
    && |s.ring.pushed| == k && s.allocationFailures == 0
    && if taken then |s.ring.popped| == 1 && s.worker.Dequeuing? && s.ring.consumer.Released?
       else s.ring.popped == [] && s.worker.Looping? && s.ring.consumer.Resting?
  }

  lemma TakesBuffer(st: Settings, s: State, f: Fragment)
    requires WellTyped(s) && s.subscriber.Polling? && s.pool.count > 0
    ensures var s1 := SubscriberStep(st, s, f, false);
            var s2 := SubscriberStep(st, s1, f, false);
            var s3 := SubscriberStep(st, s2, f, false);
            && s3.subscriber.Checking? && s3.subscriber.fragment == f && s3.ring == s.ring && s3.checked == s.checked
            && s3.worker == s.worker && s3.allocationFailures == s.allocationFailures && s3.pool.count == s.pool.count - 1
  {
    hide InBounds, ProducerStep, Tracking.OnArrival, Tracking.Sound, Received, Write, Read, MessageNumber;
  }

  lemma PassesCheck(st: Settings, s: State, k: nat)
    requires Delivery.Invariant(st, s) && k < TWO_TO_63
    requires s.subscriber.Checking? && s.subscriber.fragment == Numbered(k) && s.checked == FirstNumbered(k)
    ensures var s' := SubscriberStep(st, s, Numbered(k), false);
            && s'.subscriber.Enqueuing? && s'.checked == FirstNumbered(k + 1)
            && s'.ring == s.ring && s'.pool == s.pool && s'.worker == s.worker && s'.allocationFailures == s.allocationFailures
  {
    hide Owned, Linked, Filtered, Reported, InBounds, Tracking.Sound, Tracking.OnArrival, TrackerAfter, Passed,
      Received, Frame, Read,
      MessageNumber;
    NextPasses(st, k);
    assert FirstNumbered(k) + [Numbered(k)] == FirstNumbered(k + 1);
  }

  /** Four turns bring the next message to the queue. */
  lemma ReachesQueue(st: Settings, schedule: seq<Turn>, k: nat)
    requires st.ringSize >= 2 && k < TWO_TO_63 && k < st.poolSize
    requires exists taken :: Loaded(st, Pipeline.Run(st, schedule), k, taken)
    ensures var s := Pipeline.Run(st, schedule);
            var s' := Pipeline.Run(st, schedule + Alone(Numbered(k), 4));
            && s'.subscriber.Enqueuing? && s'.checked == FirstNumbered(k + 1)
            && s'.ring == s.ring && s'.worker == s.worker && s'.allocationFailures == s.allocationFailures
            && s'.pool.count == st.poolSize - k - 1
  {
    hide SubscriberStep, FirstNumbered, Numbered, Pipeline.Run, Delivery.Invariant, Turns;
    var f := Numbered(k);
    NoTurns(schedule, Subscribe(f, false));
    RunNext(st, schedule, f, 0);
    RunNext(st, schedule, f, 1);
    RunNext(st, schedule, f, 2);
    RunNext(st, schedule, f, 3);
    TakesBuffer(st, Pipeline.Run(st, schedule), f);
    RunInvariant(st, schedule + Alone(f, 3));
    PassesCheck(st, Pipeline.Run(st, schedule + Alone(f, 3)), k);
  }

  lemma EnqueueTurn(st: Settings, s: State, f: Fragment)
    requires WellTyped(s) && s.subscriber.Enqueuing?
    ensures var (ring, event) := ProducerStep(s.ring, s.subscriber.buf);
            var s' := SubscriberStep(st, s, f, false);
            && s'.ring == ring && s'.pool == s.pool && s'.checked == s.checked && s'.worker == s.worker
            && s'.allocationFailures == s.allocationFailures
            && (s'.subscriber.Enqueuing? || s'.subscriber.Sent? || s'.subscriber.Dropping?)
            && (s'.subscriber.Enqueuing? <==> !event.Full? && !ring.producer.Quiet?)
            && (s'.subscriber.Sent? <==> !event.Full? && ring.producer.Quiet?)
            && (s'.subscriber.Enqueuing? ==> s'.subscriber == s.subscriber)
  {
    hide InBounds, Tracking.Sound, Read;
  }

  /** The queue's two answers, from the first load to the last store. */
  lemma RingAnswers(r: Ring<nat>, buf: nat)
    requires SpscRing.Inv(r) && r.kind.PointerRing? && r.producer.Quiet?
    ensures var (r1, e1) := ProducerStep(r, buf);
            var (r2, e2) := ProducerStep(r1, buf);
            && e1.Silent? && r1.producer.HasTail? && r1 == r.(producer := r1.producer)
            && (|r.pushed| - |r.popped| == Size(r) - 1 ==> e2.Full? && r2.failures == r.failures + 1)
            && (|r.pushed| - |r.popped| < Size(r) - 1 ==> e2.Silent? && r2.producer.HasRoom? && r2 == r.(producer := r2.producer))
  {
    hide Wrap, LiveSlots, ConsumerInv;
    FullMeansFull(|r.pushed|, |r.popped|, Size(r));
  }

  lemma RingStores(r: Ring<nat>, buf: nat)
    requires InBounds(r) && r.kind.PointerRing? && r.producer.HasRoom?
    ensures var (r1, e1) := ProducerStep(r, buf);
            var (r2, e2) := ProducerStep(r1, buf);
            var (r3, e3) := ProducerStep(r2, buf);
            && !e1.Full? && !e2.Full? && !e3.Full?
            && r1.producer.Stored? && r2.producer.Published? && r3.producer.Quiet?
            && |r3.pushed| == |r.pushed| + 1 && r3.popped == r.popped && r3.consumer == r.consumer
  {
    hide Wrap;
  }

  /** Five steps of a dequeue that finds something: the oldest entry is released. */
  lemma RingYields(r: Ring<nat>)
    requires SpscRing.Inv(r) && r.kind.PointerRing? && r.consumer.Resting? && |r.popped| < |r.pushed|
    ensures var (r1, e1) := ConsumerStep(r);
            var (r2, e2) := ConsumerStep(r1);
            var (r3, e3) := ConsumerStep(r2);
            var (r4, e4) := ConsumerStep(r3);
            var (r5, e5) := ConsumerStep(r4);
            && !e1.Empty? && !e2.Empty? && !e3.Empty? && !e4.Empty? && !e5.Empty?
            && !r1.consumer.Resting? && !r2.consumer.Resting? && !r3.consumer.Resting? && !r4.consumer.Resting?
            && r5.consumer.Released? && |r5.popped| == |r.popped| + 1 && r5.pushed == r.pushed
  {
    hide Wrap, ProducerInv;
    EmptyMeansEmpty(|r.pushed|, |r.popped|, Size(r));
  }

  lemma WorkerStarts(st: Settings, s: State)
    requires WellTyped(s) && s.worker.Looping?
    ensures var s1 := WorkerStep(st, s, false);
            var s2 := WorkerStep(st, s1, false);
            s2.worker.Dequeuing? && s2.ring == s.ring && s2.pool == s.pool && s2.checked == s.checked && s2.subscriber == s.subscriber
            && s2.allocationFailures == s.allocationFailures
  {
    hide InBounds, Tracking.Sound, ConsumerStep;
  }

  lemma DequeueTurn(st: Settings, s: State)
    requires WellTyped(s) && s.worker.Dequeuing?
    requires !ConsumerStep(s.ring).1.Empty? && !ConsumerStep(s.ring).0.consumer.Resting?
    ensures var s' := WorkerStep(st, s, false);
            s'.ring == ConsumerStep(s.ring).0 && s'.worker.Dequeuing? && s'.pool == s.pool && s'.checked == s.checked && s'.subscriber == s.subscriber
            && s'.allocationFailures == s.allocationFailures
  {
    hide InBounds, Tracking.Sound, ConsumerStep;
  }

  lemma Reports(st: Settings, s: State, f: Fragment)
    requires WellTyped(s) && s.subscriber.Sent?
    ensures var s1 := SubscriberStep(st, s, f, false);
            var s2 := SubscriberStep(st, s1, f, false);
            s2.subscriber.Polling? && s2.pool == s.pool && s2.ring == s.ring && s2.checked == s.checked && s2.worker == s.worker
            && s2.allocationFailures == s.allocationFailures
  {
    hide InBounds, Tracking.Sound, Read, MessageNumber;
  }

  lemma RestOfRing(st: Settings, s: State)
    requires Owned(st, s) && s.subscriber.Polling?
    ensures SpscRing.Inv(s.ring) && s.ring.kind.PointerRing? && s.ring.producer.Quiet? && Size(s.ring) == st.ringSize
  {
    hide SpscRing.Inv, Counted, Partitioned, RoomToReturn, NeverRefused;
  }

  /** Six turns, and a full ring refuses. */
  lemma Refuses(st: Settings, schedule: seq<Turn>, k: nat)
    requires st.ringSize >= 2 && k < TWO_TO_63 && k < st.poolSize && k == st.ringSize - 1
    requires Loaded(st, Pipeline.Run(st, schedule), k, false)
    ensures Pipeline.Run(st, schedule + Alone(Numbered(k), 6)).ring.failures > 0
  {
    hide SubscriberStep, FirstNumbered, Numbered, Pipeline.Run, ProducerStep, SpscRing.Inv, Owned;
    var f := Numbered(k);
    RunOwned(st, schedule);
    RestOfRing(st, Pipeline.Run(st, schedule));
    ReachesQueue(st, schedule, k);
    var s := Pipeline.Run(st, schedule + Alone(f, 4));
    RingAnswers(s.ring, s.subscriber.buf);
    RunNext(st, schedule, f, 4);
    RunNext(st, schedule, f, 5);
    EnqueueTurn(st, s, f);
    EnqueueTurn(st, Pipeline.Run(st, schedule + Alone(f, 5)), f);
  }

  /** Eleven turns, and the next message is queued. */
  lemma Sends(st: Settings, schedule: seq<Turn>, k: nat, taken: bool)
    requires st.ringSize >= 2 && k < TWO_TO_63 && k < st.poolSize && k < if taken then st.ringSize else st.ringSize - 1
    requires Loaded(st, Pipeline.Run(st, schedule), k, taken)
    ensures Loaded(st, Pipeline.Run(st, schedule + Alone(Numbered(k), 11)), k + 1, taken)
  {
    hide SubscriberStep, FirstNumbered, Numbered, Pipeline.Run, ProducerStep, SpscRing.Inv, Owned;
    var f := Numbered(k);
    RunOwned(st, schedule);
    RestOfRing(st, Pipeline.Run(st, schedule));
    ReachesQueue(st, schedule, k);
    var s := Pipeline.Run(st, schedule + Alone(f, 4));
    var buf := s.subscriber.buf;
    RingAnswers(s.ring, buf);
    RunNext(st, schedule, f, 4);
    EnqueueTurn(st, s, f);
    var s5 := Pipeline.Run(st, schedule + Alone(f, 5));
    RunNext(st, schedule, f, 5);
    EnqueueTurn(st, s5, f);
    var s6 := Pipeline.Run(st, schedule + Alone(f, 6));
    RingStores(s6.ring, buf);
    RunNext(st, schedule, f, 6);
    EnqueueTurn(st, s6, f);
    var s7 := Pipeline.Run(st, schedule + Alone(f, 7));
    RunNext(st, schedule, f, 7);
    EnqueueTurn(st, s7, f);
    var s8 := Pipeline.Run(st, schedule + Alone(f, 8));
    RunNext(st, schedule, f, 8);
    EnqueueTurn(st, s8, f);
    var s9 := Pipeline.Run(st, schedule + Alone(f, 9));
    RunNext(st, schedule, f, 9);
    RunNext(st, schedule, f, 10);
    Reports(st, s9, f);
  }

  lemma {:induction false} CanLoad(st: Settings, k: nat) returns (schedule: seq<Turn>)
    requires 2 <= st.ringSize <= TWO_TO_63 && k < st.ringSize && k <= st.poolSize
    ensures Loaded(st, Pipeline.Run(st, schedule), k, false)
  {
    hide SubscriberStep;
    if k == 0 {
      schedule := [];
      assert FirstNumbered(0) == [];
    } else {
      var shorter := CanLoad(st, k - 1);
      Sends(st, shorter, k - 1, false);
      schedule := shorter + Alone(Numbered(k - 1), 11);
    }
  }

  /**
   The queue can never refuse a message exactly when the pool has fewer buffers than the ring has
   slots. The size bound is what keeps the numbers of the witness within an int64.
   */
  lemma NeverFullIff(st: Settings)
    requires 2 <= st.ringSize <= TWO_TO_63
    ensures st.poolSize < st.ringSize <==> forall schedule :: Pipeline.Run(st, schedule).ring.failures == 0
  {
    hide Pipeline.Run, Loaded;
    if st.poolSize < st.ringSize {
      forall schedule
        ensures Pipeline.Run(st, schedule).ring.failures == 0
      {
        Guarantees.QueueNeverFull(st, schedule);
      }
    } else {
      var schedule := CanLoad(st, st.ringSize - 1);
      Refuses(st, schedule, st.ringSize - 1);
    }
  }

  // ----- the checkpoint against the worker -----

  /** As many messages as both the pool and, with the worker's hand, the ring can hold. */
  function Capacity(st: Settings): nat {
    if st.poolSize < st.ringSize then st.poolSize else st.ringSize
  }

  /** Messages the checkpoint has been told of that the worker is not done with are all in buffers. */
  lemma ReportedAheadBound(st: Settings, schedule: seq<Turn>)
    requires st.ringSize >= 2
    ensures var s := Pipeline.Run(st, schedule);
            |s.updates| - Handled(s) <= Capacity(st)
  {
    hide Shaped, RoomToReturn, NeverRefused, Partitioned, Contents, SubscriberHand, Filtered, Tracked, Read,
      Pipeline.Run, SpscRing.Inv;
    var s := Pipeline.Run(st, schedule);
    RunInvariant(st, schedule);
    RingFacts(st, s);
    RingSize(st, s);
    Guarantees.EnoughPopped(s);
    PartitionSize(st, s);
  }

  lemma RingSize(st: Settings, s: State)
    requires Owned(st, s)
    ensures |s.ring.pushed| - |s.ring.popped| <= st.ringSize - 1
  {
    hide Counted, Partitioned, RoomToReturn, NeverRefused, LiveSlots, ProducerInv, ConsumerInv, BusyWith;
  }

  /** Seven turns, and an idle worker has taken a message it has not yet looked at. */
  lemma Takes(st: Settings, schedule: seq<Turn>, k: nat)
    requires st.ringSize >= 2 && 0 < k
    requires Loaded(st, Pipeline.Run(st, schedule), k, false)
    ensures Loaded(st, Pipeline.Run(st, schedule + Turns(Work(false), 7)), k, true)
  {
    hide WorkerStep, FirstNumbered, Pipeline.Run, ConsumerStep, SpscRing.Inv, Owned, Turns;
    var turn := Work(false);
    var s := Pipeline.Run(st, schedule);
    RunOwned(st, schedule);
    RestOfRing(st, s);
    RingYields(s.ring);
    assert schedule + Turns(turn, 0) == schedule by { NoTurns(schedule, turn); }
    TurnNext(st, schedule, turn, 0);
    TurnNext(st, schedule, turn, 1);
    WorkerStarts(st, s);
    TurnNext(st, schedule, turn, 2);
    DequeueTurn(st, Pipeline.Run(st, schedule + Turns(turn, 2)));
    TurnNext(st, schedule, turn, 3);
    DequeueTurn(st, Pipeline.Run(st, schedule + Turns(turn, 3)));
    TurnNext(st, schedule, turn, 4);
    DequeueTurn(st, Pipeline.Run(st, schedule + Turns(turn, 4)));
    TurnNext(st, schedule, turn, 5);
    DequeueTurn(st, Pipeline.Run(st, schedule + Turns(turn, 5)));
    TurnNext(st, schedule, turn, 6);
    DequeueTurn(st, Pipeline.Run(st, schedule + Turns(turn, 6)));
  }

  lemma NoTurns(schedule: seq<Turn>, turn: Turn)
    ensures schedule + Turns(turn, 0) == schedule
  {
  }

  lemma CanFill(st: Settings, k: nat) returns (schedule: seq<Turn>, taken: bool)
    requires 2 <= st.ringSize < TWO_TO_63 && k <= Capacity(st)
    ensures Loaded(st, Pipeline.Run(st, schedule), k, taken)
  {
    hide Pipeline.Run, Loaded, Turns, Alone, Numbered;
    taken := k == st.ringSize;
    if taken {
      schedule := CanLoad(st, k - 1);
      Takes(st, schedule, k - 1);
      schedule := schedule + Turns(Work(false), 7);
      Sends(st, schedule, k - 1, true);
      schedule := schedule + Alone(Numbered(k - 1), 11);
    } else {
      schedule := CanLoad(st, k);
    }
  }

  /**
   The bound is met: any number of messages up to that capacity can be in the checkpoint, and so be
   skipped by a restart, with none of them processed.
   */
  lemma CheckpointRunsAhead(st: Settings, k: nat) returns (schedule: seq<Turn>)
    requires 2 <= st.ringSize < TWO_TO_63 && k <= Capacity(st)
    ensures var s := Pipeline.Run(st, schedule);
            && |s.updates| == k && s.processed == [] && Handled(s) == 0
            && s.subscriber.Polling? && s.checked == FirstNumbered(k) && s.allocationFailures == 0
            && |s.origin| == k
  {
    hide Pipeline.Run, Delivery.Invariant, Loaded, Through, WorkerHand, Capacity, FirstNumbered;
    var taken: bool;
    schedule, taken := CanFill(st, k);
    var s := Pipeline.Run(st, schedule);
    Guarantees.CheckpointTold(st, schedule);
    Guarantees.ProcessedIsFilterOfSent(st, schedule);
    RunInvariant(st, schedule);
    LoadedCounts(st, s, k, taken);
    assert s.sent[..0] == [];
    ThroughNothing(st.seenLimit);
  }

  lemma ThroughNothing(limit: nat)
    ensures Through([], limit) == []
  {
  }

  lemma LoadedCounts(st: Settings, s: State, k: nat, taken: bool)
    requires Delivery.Invariant(st, s) && Loaded(st, s, k, taken)
    ensures |s.origin| == k && Decided(s) == 0 && InProcessing(s) == [] && s.subscriber.Polling?
    ensures s.checked == FirstNumbered(k) && s.allocationFailures == 0
  {
    hide Owned, Filtered, FirstNumbered, Read, TrackerAfter, Passed, Received;
  }
}

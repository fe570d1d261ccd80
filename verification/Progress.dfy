/**
 What the two threads get done: from every reachable state a thread left alone finishes the message it
 is at, with the effect the sequential filters say, and the worker alone empties the queue.
 */
module Progress {
  import opened Bytes
  import opened MessageFrame
  import opened Wrappers
  import opened SpscRing
  import opened BufferPools
  import opened Pipeline
  import opened Ownership
  import opened Delivery
  import opened QueueBound
  import Guarantees
  import SeenFilter
  import Tracking

  /** n turns of one thread, from any state. */
  function After(st: Settings, s: State, turn: Turn, n: nat): (s': State)
    requires WellTyped(s)
    ensures WellTyped(s')
  {
    if n == 0 then s else Pipeline.Step(st, After(st, s, turn, n - 1), turn)
  }

  lemma {:induction false} RunAfter(st: Settings, schedule: seq<Turn>, turn: Turn, n: nat)
    requires st.ringSize >= 2
    ensures Pipeline.Run(st, schedule + Turns(turn, n)) == After(st, Pipeline.Run(st, schedule), turn, n)
  {
    hide Pipeline.Run, Pipeline.Step, Turns;
    if n == 0 {
      NoTurns(schedule, turn);
    } else {
      RunAfter(st, schedule, turn, n - 1);
      TurnNext(st, schedule, turn, n - 1);
    }
  }

  lemma {:induction false} AfterAfter(st: Settings, s: State, turn: Turn, m: nat, n: nat)
    requires WellTyped(s)
    ensures After(st, After(st, s, turn, m), turn, n) == After(st, s, turn, m + n)
  {
    hide Pipeline.Step, InBounds, Tracking.Sound;
    if n > 0 {
      AfterAfter(st, s, turn, m, n - 1);
    }
  }

  const WORK: Turn := Work(false)

  // ----- the worker and a message -----

  /** A dequeue that finds something, by the number of its steps. */
  function Dequeue(r: Ring<nat>, n: nat): (r': Ring<nat>)
    requires InBounds(r)
    ensures InBounds(r') && Size(r') == Size(r)
  {
    if n == 0 then r else ConsumerStep(Dequeue(r, n - 1)).0
  }

  lemma DequeueSteps(r: Ring<nat>, n: nat)
    requires SpscRing.Inv(r) && r.kind.PointerRing? && r.consumer.Resting? && |r.popped| < |r.pushed| && n < 5
    ensures !ConsumerStep(Dequeue(r, n)).1.Empty? && !ConsumerStep(Dequeue(r, n)).0.consumer.Resting?
  {
    hide ConsumerStep, SpscRing.Inv;
    FiveSteps(r);
    RingYields(r);
  }

  lemma FiveSteps(r: Ring<nat>)
    requires InBounds(r)
    ensures Dequeue(r, 0) == r && Dequeue(r, 1) == ConsumerStep(r).0 && Dequeue(r, 2) == ConsumerStep(Dequeue(r, 1)).0
    ensures Dequeue(r, 3) == ConsumerStep(Dequeue(r, 2)).0 && Dequeue(r, 4) == ConsumerStep(Dequeue(r, 3)).0
    ensures Dequeue(r, 5) == ConsumerStep(Dequeue(r, 4)).0 && Dequeue(r, 6) == ConsumerStep(Dequeue(r, 5)).0
  {
    hide ConsumerStep;
  }

  /** Six steps take the oldest entry and nothing else. */
  lemma DequeueTakes(r: Ring<nat>)
    requires SpscRing.Inv(r) && Counted(r) && r.kind.PointerRing? && r.consumer.Resting? && |r.popped| < |r.pushed|
    ensures var r' := Dequeue(r, 6);
            && r'.consumer.Resting? && r'.pushed == r.pushed && r'.popped == r.popped + [r.pushed[|r.popped|]]
            && r'.tail == r.tail && r'.producer == r.producer && r'.failures == r.failures
  {
    hide ConsumerStep, SpscRing.Inv, Counted;
    FiveSteps(r);
    RingYields(r);
    ConsumerFrame(r, 5);
    ConsumerFrame(r, 6);
    Released(Dequeue(r, 5));
    Popped(r, Dequeue(r, 5));
  }

  lemma Released(r: Ring<nat>)
    requires InBounds(r) && r.consumer.Released?
    ensures ConsumerStep(r) == (r.(consumer := Resting, dequeued := r.dequeued + 1), Silent)
  {
  }

  lemma Popped(r: Ring<nat>, r': Ring<nat>)
    requires SpscRing.Inv(r) && SpscRing.Inv(r') && r'.pushed == r.pushed && |r'.popped| == |r.popped| + 1 <= |r.pushed|
    ensures r'.popped == r.popped + [r.pushed[|r.popped|]]
  {
    hide LiveSlots, ProducerInv, ConsumerInv, Wrap;
  }

  lemma {:induction false} ConsumerFrame(r: Ring<nat>, n: nat)
    requires SpscRing.Inv(r) && Counted(r) && r.kind.PointerRing?
    ensures var r' := Dequeue(r, n);
            && SpscRing.Inv(r') && Counted(r') && r'.kind.PointerRing?
            && r'.producer == r.producer && r'.pushed == r.pushed && r'.failures == r.failures && r'.tail == r.tail
  {
    hide ConsumerStep, SpscRing.Inv, Counted;
    if n > 0 {
      ConsumerFrame(r, n - 1);
      ConsumerEffect(Dequeue(r, n - 1));
      SameTail(Dequeue(r, n - 1));
    }
  }

  lemma SameTail(r: Ring<nat>)
    requires InBounds(r)
    ensures ConsumerStep(r).0.tail == r.tail
  {
  }

  lemma OneTurn(st: Settings, s: State, turn: Turn, n: nat)
    requires WellTyped(s)
    ensures After(st, s, turn, 0) == s
    ensures After(st, s, turn, n + 1) == Pipeline.Step(st, After(st, s, turn, n), turn)
  {
    hide Pipeline.Step;
  }

  /** Two turns sample the depth. */
  lemma Samples(st: Settings, s: State)
    requires Owned(st, s) && s.worker.Looping?
    ensures After(st, s, WORK, 2)
            == s.(worker := Dequeuing, depthTotal := s.depthTotal + |Contents(s.ring)|, depthSamples := s.depthSamples + 1)
  {
    hide InBounds, Tracking.Sound, ConsumerStep, Contents, Owned;
    OneTurn(st, s, WORK, 0);
    OneTurn(st, s, WORK, 1);
    RingFacts(st, s);
    DepthIsExact(s.ring);
  }

  lemma RingTurn(st: Settings, s: State)
    requires WellTyped(s) && s.worker.Dequeuing?
    requires !ConsumerStep(s.ring).1.Empty? && !ConsumerStep(s.ring).0.consumer.Resting?
    ensures WorkerStep(st, s, false) == s.(ring := ConsumerStep(s.ring).0)
  {
    hide InBounds, Tracking.Sound, ConsumerStep;
  }

  /** The worker is at the start of a dequeue that will find something. */
  ghost predicate Finds(s: State) {
    && WellTyped(s) && s.worker.Dequeuing? && s.ring.consumer.Resting? && |s.ring.popped| < |s.ring.pushed|
    && SpscRing.Inv(s.ring) && Counted(s.ring) && s.ring.kind.PointerRing?
  }

  lemma {:induction false} RingTurns(st: Settings, s: State, n: nat)
    requires Finds(s) && n <= 5
    ensures After(st, s, WORK, n) == s.(ring := Dequeue(s.ring, n))
  {
    hide InBounds, Tracking.Sound, ConsumerStep, WorkerStep, SubscriberStep, SpscRing.Inv, Counted;
    if n > 0 {
      RingTurns(st, s, n - 1);
      DequeueSteps(s.ring, n - 1);
      RingTurn(st, s.(ring := Dequeue(s.ring, n - 1)));
    }
  }

  /** Six turns take the oldest message off the queue. */
  lemma TakesOldest(st: Settings, s: State)
    requires Finds(s)
    ensures After(st, s, WORK, 6)
            == s.(ring := Dequeue(s.ring, 6), worker := Holding(Some(s.ring.pushed[|s.ring.popped|])))
  {
    hide InBounds, Tracking.Sound, ConsumerStep, WorkerStep, Counted, SpscRing.Inv, Dequeue;
    RingTurns(st, s, 5);
    OneTurn(st, s, WORK, 5);
    DequeueTakes(s.ring);
    FiveSteps(s.ring);
    RingYields(s.ring);
    Released(Dequeue(s.ring, 5));
    LastRingTurn(st, s.(ring := Dequeue(s.ring, 5)));
  }

  lemma LastRingTurn(st: Settings, s: State)
    requires WellTyped(s) && s.worker.Dequeuing? && s.ring.consumer.Released? && s.ring.popped != []
    ensures WorkerStep(st, s, false)
            == s.(ring := ConsumerStep(s.ring).0, worker := Holding(Some(s.ring.popped[|s.ring.popped| - 1])))
  {
    hide InBounds, Tracking.Sound, ConsumerStep;
    Released(s.ring);
  }

  /** Two turns decide on the message in hand. */
  lemma Filters(st: Settings, s: State)
    requires WellTyped(s) && s.worker.Holding? && s.worker.pointer.Some?
    ensures var buf := s.worker.pointer.value;
            var c := Read(s, buf);
            After(st, s, WORK, 2)
            == if Key(c) in s.seen then s.(worker := Releasing(buf, false), workerDuplicates := s.workerDuplicates + 1)
               else s.(seen := SeenFilter.Check(s.seen, Key(c), st.seenLimit).0, worker := Processing(buf))
  {
    hide InBounds, Tracking.Sound, ConsumerStep, FreeTurn, Key;
    OneTurn(st, s, WORK, 0);
    OneTurn(st, s, WORK, 1);
  }

  lemma Processes(st: Settings, s: State)
    requires WellTyped(s) && s.worker.Processing?
    ensures After(st, s, WORK, 1) == s.(processed := s.processed + [Read(s, s.worker.held)], worker := Releasing(s.worker.held, true))
  {
    hide InBounds, Tracking.Sound, ConsumerStep, FreeTurn, Key, Read;
    OneTurn(st, s, WORK, 0);
  }

  /** Two turns give the buffer back. */
  lemma GivesBack(st: Settings, s: State)
    requires WellTyped(s) && s.worker.Releasing? && s.pool.count < |s.pool.list|
    ensures var pool := FreeTurn(s.pool, s.pool.count, s.worker.held, false).0;
            && WithinPool(pool) && FreeStack(pool) == FreeStack(s.pool) + [s.worker.held]
            && After(st, s, WORK, 2)
               == s.(pool := pool, worker := Looping, processedCount := s.processedCount + if s.worker.done then 1 else 0)
  {
    hide InBounds, Tracking.Sound, ConsumerStep, SeenFilter.Check, Key, Read;
    OneTurn(st, s, WORK, 0);
    OneTurn(st, s, WORK, 1);
  }

  /** Everything the worker has no part in. */
  predicate SameReceiving(s: State, s': State) {
    && s'.subscriber == s.subscriber && s'.tracker == s.tracker && s'.memory == s.memory
    && s'.fragments == s.fragments && s'.allocationFailures == s.allocationFailures && s'.queueFull == s.queueFull
    && s'.received == s.received && s'.checked == s.checked && s'.fates == s.fates && s'.origin == s.origin
    && s'.sent == s.sent && s'.updates == s.updates
    && s'.ring.pushed == s.ring.pushed && s'.ring.producer == s.ring.producer && s'.ring.failures == s.ring.failures
  }

  /** The oldest queued message repeats a number the filter has. */
  ghost predicate Repeats(st: Settings, s: State)
    requires |s.ring.popped| < |s.sent|
  {
    var k := |s.ring.popped|;
    Key(s.sent[k]) in SeenFilter.After({}, Keys(s.sent[..k]), st.seenLimit)
  }

  /** From s to s' the worker has handled exactly the oldest queued message, and given its buffer back. */
  ghost predicate HandledOldest(st: Settings, s: State, s': State)
    requires WellTyped(s) && WellTyped(s') && |s.ring.popped| < |s.ring.pushed| == |s.sent|
  {
    var k := |s.ring.popped|;
    var first := !Repeats(st, s);
    && s'.worker.Looping? && s'.ring.consumer.Resting?
    && s'.ring.popped == s.ring.popped + [s.ring.pushed[k]]
    && FreeStack(s'.pool) == FreeStack(s.pool) + [s.ring.pushed[k]]
    && s'.processed == s.processed + (if first then [s.sent[k]] else [])
    && s'.processedCount == s.processedCount + (if first then 1 else 0)
    && s'.workerDuplicates == s.workerDuplicates + (if first then 0 else 1)
    && s'.depthTotal == s.depthTotal + |s.sent| - k && s'.depthSamples == s.depthSamples + 1
    && s'.emptyPolls == s.emptyPolls && s'.invalid == s.invalid && s'.overflows == s.overflows
    && SameReceiving(s, s')
  }

  /** What the invariant says of a state in which the worker is between messages. */
  lemma LoopingFacts(st: Settings, s: State)
    requires Delivery.Invariant(st, s) && s.worker.Looping?
    ensures |s.sent| == |s.ring.pushed| && |s.ring.popped| <= |s.ring.pushed|
    ensures s.seen == SeenFilter.After({}, Keys(s.sent[..|s.ring.popped|]), st.seenLimit)
    ensures s.processed == Through(s.sent[..|s.ring.popped|], st.seenLimit)
    ensures s.ring.consumer.Resting? && Handled(s) == |s.ring.popped|
    ensures |s.ring.popped| < |s.ring.pushed| ==> Read(s, s.ring.pushed[|s.ring.popped|]) == s.sent[|s.ring.popped|]
    ensures |Contents(s.ring)| == |s.sent| - |s.ring.popped|
  {
    hide Owned, Tracked, Reported, Read, Through, Keys, SeenFilter.After;
    RingFacts(st, s);
  }

  lemma RoomForQueued(st: Settings, s: State)
    requires Owned(st, s)
    ensures s.pool.count + |Contents(s.ring)| <= |s.pool.list|
  {
    hide Contents, SubscriberHand, WorkerHand, Partitioned, SpscRing.Inv, Counted;
    PartitionSize(st, s);
  }

  /** Twelve undisturbed turns, or thirteen when it is to be processed, see the oldest message through. */
  lemma HandlesOldest(st: Settings, s: State)
    requires Delivery.Invariant(st, s) && s.worker.Looping? && |s.ring.popped| < |s.ring.pushed|
    ensures |s.sent| == |s.ring.pushed|
    ensures HandledOldest(st, s, After(st, s, WORK, if Repeats(st, s) then 12 else 13))
  {
    hide InBounds, Tracking.Sound, ConsumerStep, WorkerStep, SubscriberStep, Owned, Linked, Filtered, Tracked,
      Reported, After, SeenFilter.After,
      Key, Keys, FreeTurn, Dequeue, Contents, SpscRing.Inv, Counted, FreeStack;
    LoopingFacts(st, s);
    RingFacts(st, s);
    RoomForQueued(st, s);
    var k := |s.ring.popped|;
    var buf := s.ring.pushed[k];
    DequeueTakes(s.ring);
    var s2 := s.(worker := Dequeuing, depthTotal := s.depthTotal + |Contents(s.ring)|, depthSamples := s.depthSamples + 1);
    Samples(st, s);
    TakesOldest(st, s2);
    var s8 := s2.(ring := Dequeue(s.ring, 6), worker := Holding(Some(buf)));
    AfterAfter(st, s, WORK, 2, 6);
    Filters(st, s8);
    AfterAfter(st, s, WORK, 8, 2);
    if Repeats(st, s) {
      var s10 := s8.(worker := Releasing(buf, false), workerDuplicates := s.workerDuplicates + 1);
      GivesBack(st, s10);
      AfterAfter(st, s, WORK, 10, 2);
    } else {
      var s10 := s8.(seen := SeenFilter.Check(s.seen, Key(s.sent[k]), st.seenLimit).0, worker := Processing(buf));
      Processes(st, s10);
      AfterAfter(st, s, WORK, 10, 1);
      var s11 := s10.(processed := s.processed + [s.sent[k]], worker := Releasing(buf, true));
      GivesBack(st, s11);
      AfterAfter(st, s, WORK, 11, 2);
    }
  }

  /** With nothing queued four turns count an empty poll and a sample of depth zero, and change nothing else. */
  lemma PollsEmpty(st: Settings, s: State)
    requires Delivery.Invariant(st, s) && s.worker.Looping? && |s.ring.popped| == |s.ring.pushed|
    ensures After(st, s, WORK, 4) == s.(emptyPolls := s.emptyPolls + 1, depthSamples := s.depthSamples + 1)
  {
    hide InBounds, Tracking.Sound, ConsumerStep, WorkerStep, SubscriberStep, Owned, Linked, Filtered, Tracked,
      Reported, After, SeenFilter.After,
      Keys, Contents, SpscRing.Inv, Counted;
    LoopingFacts(st, s);
    RingFacts(st, s);
    Samples(st, s);
    var s2 := s.(worker := Dequeuing, depthSamples := s.depthSamples + 1);
    NothingToTake(s.ring);
    OneTurn(st, s, WORK, 2);
    OneTurn(st, s, WORK, 3);
    RingTurn(st, s2);
    EmptyTurn(st, s2.(ring := ConsumerStep(s.ring).0));
  }

  lemma NothingToTake(r: Ring<nat>)
    requires SpscRing.Inv(r) && r.consumer.Resting? && |r.popped| == |r.pushed|
    ensures var (r1, e1) := ConsumerStep(r);
            e1.Silent? && r1.consumer.HasHead? && ConsumerStep(r1) == (r, Empty)
  {
    hide Wrap, LiveSlots, ProducerInv;
  }

  lemma EmptyTurn(st: Settings, s: State)
    requires WellTyped(s) && s.worker.Dequeuing? && ConsumerStep(s.ring).1.Empty?
    ensures WorkerStep(st, s, false) == s.(ring := ConsumerStep(s.ring).0, worker := Looping, emptyPolls := s.emptyPolls + 1)
  {
    hide InBounds, Tracking.Sound, ConsumerStep;
  }

  /**
   The worker's progress: from every reachable state in which it is between messages and something is
   queued, it is between messages again after 12 turns, or 13, with the oldest message handled.
   */
  lemma {:induction false} WorkerProgress(st: Settings, schedule: seq<Turn>)
    requires st.ringSize >= 2
    requires var s := Pipeline.Run(st, schedule); s.worker.Looping? && |s.ring.popped| < |s.ring.pushed|
    ensures var s := Pipeline.Run(st, schedule);
            && |s.sent| == |s.ring.pushed|
            && var s' := Pipeline.Run(st, schedule + Turns(WORK, if Repeats(st, s) then 12 else 13));
               && HandledOldest(st, s, s')
               && Handled(s') == |s'.ring.popped| == |s.ring.popped| + 1
               && s'.processed == Through(s.sent[..|s.ring.popped| + 1], st.seenLimit)
               && s'.pool.count == s.pool.count + 1
  {
    hide Pipeline.Run, Turns, After, HandledOldest, Repeats, Owned, Linked, Filtered, Tracked, Reported, Through;
    var s := Pipeline.Run(st, schedule);
    RunInvariant(st, schedule);
    HandlesOldest(st, s);
    var turns := if Repeats(st, s) then 12 else 13;
    RunAfter(st, schedule, WORK, turns);
    RunInvariant(st, schedule + Turns(WORK, turns));
    OldestHandled(st, s, After(st, s, WORK, turns));
  }

  lemma OldestHandled(st: Settings, s: State, s': State)
    requires Delivery.Invariant(st, s) && Delivery.Invariant(st, s') && |s.ring.popped| < |s.ring.pushed| == |s.sent|
    requires HandledOldest(st, s, s')
    ensures Handled(s') == |s'.ring.popped| == |s.ring.popped| + 1
    ensures s'.processed == Through(s.sent[..|s.ring.popped| + 1], st.seenLimit)
    ensures s'.pool.count == s.pool.count + 1 && s'.worker.Looping? && s'.sent == s.sent
    ensures s'.ring.pushed == s.ring.pushed
    ensures s'.subscriber == s.subscriber && s'.checked == s.checked && s'.fates == s.fates
  {
    hide Owned, Linked, Filtered, Tracked, Reported, Through, Repeats, Read, InBounds, Tracking.Sound;
    LoopingFacts(st, s');
    assert |FreeStack(s'.pool)| == s'.pool.count && |FreeStack(s.pool)| == s.pool.count;
  }

  // ----- from any state -----

  /** A bound on the turns the worker needs to be between messages. */
  function WorkerRank(s: State): nat {
    match s.worker
    case Looping => 0
    case Returning(_, _, expected) => if expected == s.pool.count then 1 else 2
    case Releasing(_, _) => 2
    case Processing(_) => 3
    case Deciding(_) => 4
    case Holding(_) => 5
    case Dequeuing => (
      match s.ring.consumer
      case Released => 6
      case Nulled(_, _) => 7
      case Took(_, _) => 8
      case SawItem(_) => 9
      case HasHead(_) => 10
      case Resting => 11)
    case Sizing(_) => 12
  }

  lemma WorkerRankDrops(st: Settings, s: State)
    requires Owned(st, s) && !s.worker.Looping?
    ensures WorkerRank(WorkerStep(st, s, false)) < WorkerRank(s)
  {
    hide InBounds, Tracking.Sound, ConsumerStep, SpscRing.Inv, Counted, BusyWith, Partitioned, SeenFilter.Check, Key,
      Read;
    if s.worker.Dequeuing? {
      ConsumerAdvances(s.ring);
    }
  }

  lemma ConsumerAdvances(r: Ring<nat>)
    requires SpscRing.Inv(r) && r.kind.PointerRing?
    ensures var (r', e) := ConsumerStep(r);
            && (r.consumer.Resting? ==> r'.consumer.HasHead? && e.Silent?)
            && (r.consumer.HasHead? ==> (e.Silent? && r'.consumer.SawItem?) || e.Empty?)
            && (r.consumer.SawItem? ==> r'.consumer.Took? && e.Silent?)
            && (r.consumer.Took? ==> r'.consumer.Nulled? && e.Silent?)
            && (r.consumer.Nulled? ==> r'.consumer.Released? && e.Popped?)
            && (r.consumer.Released? ==> r'.consumer.Resting? && e.Silent? && r'.popped == r.popped)
  {
    hide Wrap, ProducerInv;
  }

  // ----- the subscriber and a fragment -----

  function Deliver(f: Fragment): Turn {
    Subscribe(f, false)
  }

  /** An exhausted pool: two turns, and the fragment is counted and dropped. */
  lemma FindsNone(st: Settings, s: State, f: Fragment)
    requires WellTyped(s) && s.subscriber.Polling? && s.pool.count == 0
    ensures After(st, s, Deliver(f), 2)
            == s.(pool := s.pool.(failures := s.pool.failures + 1), fragments := s.fragments + 1,
                  allocationFailures := s.allocationFailures + 1)
  {
    hide InBounds, Tracking.Sound, ProducerStep, Tracking.OnArrival, Received, Write, Read, MessageNumber;
    OneTurn(st, s, Deliver(f), 0);
    OneTurn(st, s, Deliver(f), 1);
  }

  /** Three turns take the top buffer and fill it. */
  lemma Fills(st: Settings, s: State, f: Fragment)
    requires WellTyped(s) && s.subscriber.Polling? && s.pool.count > 0
    ensures var pool := AllocTurn(s.pool, s.pool.count, false).0;
            var buf := s.pool.list[s.pool.count - 1];
            && WithinPool(pool) && FreeStack(s.pool) == FreeStack(pool) + [buf] && |pool.list| == |s.pool.list|
            && pool.count == s.pool.count - 1
            && After(st, s, Deliver(f), 3)
               == s.(pool := pool, memory := Write(s, buf, Received(f)), fragments := s.fragments + 1, subscriber := Checking(f, buf))
  {
    hide InBounds, Tracking.Sound, ProducerStep, Tracking.OnArrival, Received, Read, MessageNumber;
    OneTurn(st, s, Deliver(f), 0);
    OneTurn(st, s, Deliver(f), 1);
    OneTurn(st, s, Deliver(f), 2);
  }

  lemma Checks(st: Settings, s: State, f: Fragment)
    requires WellTyped(s) && s.subscriber.Checking? && Read(s, s.subscriber.buf) == Received(s.subscriber.fragment)
    ensures var g, buf := s.subscriber.fragment, s.subscriber.buf;
            var (tracker, pass) := Tracking.OnArrival(st.tracking, s.tracker, ArrivalOf(g));
            After(st, s, Deliver(f), 1)
            == s.(tracker := tracker, checked := s.checked + [g],
                  subscriber := if pass then Enqueuing(g, buf) else Dropping(buf, Duplicate))
  {
    hide InBounds, Tracking.Sound, ProducerStep, Tracking.OnArrival, Received, Read, MessageNumber;
    OneTurn(st, s, Deliver(f), 0);
  }

  /** Two turns put the buffer back. */
  lemma PutsBack(st: Settings, s: State, f: Fragment)
    requires WellTyped(s) && s.subscriber.Dropping? && s.pool.count < |s.pool.list|
    ensures var pool := FreeTurn(s.pool, s.pool.count, s.subscriber.buf, false).0;
            && WithinPool(pool) && FreeStack(pool) == FreeStack(s.pool) + [s.subscriber.buf]
            && After(st, s, Deliver(f), 2)
               == s.(pool := pool, subscriber := Polling, queueFull := s.queueFull + if s.subscriber.why.NoRoom? then 1 else 0)
  {
    hide InBounds, Tracking.Sound, ProducerStep, Tracking.OnArrival, Received, Read, MessageNumber;
    OneTurn(st, s, Deliver(f), 0);
    OneTurn(st, s, Deliver(f), 1);
  }

  /** A full ring refuses in two turns. */
  lemma IsRefused(st: Settings, s: State, f: Fragment)
    requires WellTyped(s) && s.subscriber.Enqueuing? && s.ring.producer.Quiet? && SpscRing.Inv(s.ring)
    requires s.ring.kind.PointerRing?
    requires |Contents(s.ring)| == Size(s.ring) - 1
    ensures After(st, s, Deliver(f), 2)
            == s.(ring := s.ring.(failures := s.ring.failures + 1), fates := s.fates + [false],
                  subscriber := Dropping(s.subscriber.buf, NoRoom))
  {
    hide InBounds, Tracking.Sound, ProducerStep, SubscriberStep, SpscRing.Inv, Contents;
    var buf := s.subscriber.buf;
    RefusedRing(s.ring, buf);
    OneTurn(st, s, Deliver(f), 0);
    OneTurn(st, s, Deliver(f), 1);
    QuietTurn(st, s, f);
    FullTurn(st, s.(ring := ProducerStep(s.ring, buf).0), f);
  }

  lemma RefusedRing(r: Ring<nat>, buf: nat)
    requires SpscRing.Inv(r) && r.producer.Quiet? && |Contents(r)| == Size(r) - 1
    ensures var (r1, e1) := ProducerStep(r, buf);
            e1.Silent? && r1.producer.HasTail? && ProducerStep(r1, buf) == (r.(failures := r.failures + 1), Full)
  {
    hide Wrap, LiveSlots, ConsumerInv;
    FullMeansFull(|r.pushed|, |r.popped|, Size(r));
  }

  lemma QuietTurn(st: Settings, s: State, f: Fragment)
    requires WellTyped(s) && s.subscriber.Enqueuing?
    requires ProducerStep(s.ring, s.subscriber.buf).1.Silent?
    requires !ProducerStep(s.ring, s.subscriber.buf).0.producer.Quiet?
    ensures SubscriberStep(st, s, f, false) == s.(ring := ProducerStep(s.ring, s.subscriber.buf).0)
  {
    hide InBounds, Tracking.Sound, ProducerStep, Read;
  }

  lemma FullTurn(st: Settings, s: State, f: Fragment)
    requires WellTyped(s) && s.subscriber.Enqueuing? && ProducerStep(s.ring, s.subscriber.buf).1.Full?
    ensures SubscriberStep(st, s, f, false)
            == s.(ring := ProducerStep(s.ring, s.subscriber.buf).0, fates := s.fates + [false],
                  subscriber := Dropping(s.subscriber.buf, NoRoom))
  {
    hide InBounds, Tracking.Sound, ProducerStep, Read;
  }

  lemma PushTurn(st: Settings, s: State, f: Fragment)
    requires WellTyped(s) && s.subscriber.Enqueuing?
    requires ProducerStep(s.ring, s.subscriber.buf).1.Pushed?
    requires !ProducerStep(s.ring, s.subscriber.buf).0.producer.Quiet?
    ensures SubscriberStep(st, s, f, false)
            == s.(ring := ProducerStep(s.ring, s.subscriber.buf).0, fates := s.fates + [true],
                  origin := s.origin + [s.subscriber.fragment], sent := s.sent + [Read(s, s.subscriber.buf)])
  {
    hide InBounds, Tracking.Sound, ProducerStep, Read;
  }

  lemma SentTurn(st: Settings, s: State, f: Fragment)
    requires WellTyped(s) && s.subscriber.Enqueuing?
    requires ProducerStep(s.ring, s.subscriber.buf).1.Silent?
    requires ProducerStep(s.ring, s.subscriber.buf).0.producer.Quiet?
    ensures SubscriberStep(st, s, f, false)
            == s.(ring := ProducerStep(s.ring, s.subscriber.buf).0, subscriber := Sent(s.subscriber.fragment, s.subscriber.buf))
  {
    hide InBounds, Tracking.Sound, ProducerStep, Read;
  }

  /** An enqueue that finds room, by the number of its steps. */
  function Enqueue(r: Ring<nat>, buf: nat, n: nat): (r': Ring<nat>)
    requires InBounds(r)
    ensures InBounds(r') && Size(r') == Size(r)
  {
    if n == 0 then r else ProducerStep(Enqueue(r, buf, n - 1), buf).0
  }

  /** Its five steps: silent but for the fourth, which publishes. */
  lemma EnqueueSteps(r: Ring<nat>, buf: nat)
    requires SpscRing.Inv(r) && r.kind.PointerRing? && r.producer.Quiet? && |Contents(r)| < Size(r) - 1
    ensures var r1 := ProducerStep(r, buf).0;
            var r2 := ProducerStep(r1, buf).0;
            var r3 := ProducerStep(r2, buf).0;
            var r4 := ProducerStep(r3, buf).0;
            var r5 := ProducerStep(r4, buf).0;
            && ProducerStep(r, buf).1.Silent? && r1.producer == HasTail(buf, r.tail)
            && ProducerStep(r1, buf).1.Silent? && r2.producer == HasRoom(buf, r.tail)
            && ProducerStep(r2, buf).1.Silent? && r3.producer == Stored(buf, r.tail)
            && ProducerStep(r3, buf).1.Pushed? && r4.producer.Published?
            && ProducerStep(r4, buf).1.Silent? && r5.producer.Quiet?
            && r5.pushed == r.pushed + [buf] && r5.popped == r.popped && r5.consumer == r.consumer && r5.failures == r.failures
  {
    hide Wrap, LiveSlots, ConsumerInv;
    FullMeansFull(|r.pushed|, |r.popped|, Size(r));
  }

  lemma FiveEnqueueSteps(r: Ring<nat>, buf: nat)
    requires InBounds(r)
    ensures Enqueue(r, buf, 0) == r && Enqueue(r, buf, 1) == ProducerStep(r, buf).0
    ensures Enqueue(r, buf, 2) == ProducerStep(Enqueue(r, buf, 1), buf).0
    ensures Enqueue(r, buf, 3) == ProducerStep(Enqueue(r, buf, 2), buf).0
    ensures Enqueue(r, buf, 4) == ProducerStep(Enqueue(r, buf, 3), buf).0
    ensures Enqueue(r, buf, 5) == ProducerStep(Enqueue(r, buf, 4), buf).0
  {
    hide ProducerStep;
  }

  /** A ring with room takes the buffer in five turns. */
  lemma IsTaken(st: Settings, s: State, f: Fragment)
    requires WellTyped(s) && s.subscriber.Enqueuing? && s.ring.producer.Quiet? && SpscRing.Inv(s.ring)
    requires s.ring.kind.PointerRing?
    requires |Contents(s.ring)| < Size(s.ring) - 1
    ensures var g, buf := s.subscriber.fragment, s.subscriber.buf;
            After(st, s, Deliver(f), 5)
            == s.(ring := Enqueue(s.ring, buf, 5), fates := s.fates + [true], origin := s.origin + [g],
                  sent := s.sent + [Read(s, buf)], subscriber := Sent(g, buf))
  {
    hide InBounds, Tracking.Sound, ProducerStep, SubscriberStep, SpscRing.Inv, Contents, After, Enqueue;
    var g, buf := s.subscriber.fragment, s.subscriber.buf;
    var turn := Deliver(f);
    EnqueueSteps(s.ring, buf);
    FiveEnqueueSteps(s.ring, buf);
    OneTurn(st, s, turn, 0);
    QuietTurn(st, s, f);
    OneTurn(st, s, turn, 1);
    QuietTurn(st, s.(ring := Enqueue(s.ring, buf, 1)), f);
    OneTurn(st, s, turn, 2);
    QuietTurn(st, s.(ring := Enqueue(s.ring, buf, 2)), f);
    OneTurn(st, s, turn, 3);
    PushTurn(st, s.(ring := Enqueue(s.ring, buf, 3)), f);
    OneTurn(st, s, turn, 4);
    SentTurn(st, s.(ring := Enqueue(s.ring, buf, 4), fates := s.fates + [true], origin := s.origin + [g], sent := s.sent + [Read(s, buf)]), f);
  }

  /** Two turns tell the checkpoint. */
  lemma Tells(st: Settings, s: State, f: Fragment)
    requires WellTyped(s) && s.subscriber.Sent?
    ensures var g := s.subscriber.fragment;
            After(st, s, Deliver(f), 2)
            == s.(received := s.received + 1, subscriber := Polling,
                  updates := s.updates + [Update(MessageNumber(Read(s, s.subscriber.buf)), g.position, s.received + 1)])
  {
    hide InBounds, Tracking.Sound, ProducerStep, Tracking.OnArrival, MessageNumber;
    OneTurn(st, s, Deliver(f), 0);
    OneTurn(st, s, Deliver(f), 1);
  }

  lemma TopInPool(st: Settings, s: State)
    requires Owned(st, s) && s.pool.count > 0
    ensures s.pool.list[s.pool.count - 1] < |s.memory| && |s.pool.list| == st.poolSize == |s.memory|
    ensures Size(s.ring) == st.ringSize
    ensures FreeStack(s.pool)[s.pool.count - 1] == s.pool.list[s.pool.count - 1] && |FreeStack(s.pool)| == s.pool.count
  {
    hide Contents, SubscriberHand, WorkerHand, AllBuffers, SpscRing.Inv, Counted, BusyWith;
    var buf := s.pool.list[s.pool.count - 1];
    var free := FreeStack(s.pool);
    assert free[s.pool.count - 1] == buf;
    assert buf in multiset(free);
    AllBuffersOnce(st.poolSize, buf);
    assert multiset(AllBuffers(st.poolSize))[buf]
        == multiset(free)[buf] + multiset(Contents(s.ring))[buf] + multiset(SubscriberHand(s))[buf] + multiset(WorkerHand(s))[buf];
  }

  /** Everything the subscriber has no part in. */
  predicate SameHandling(s: State, s': State) {
    && s'.worker == s.worker && s'.seen == s.seen && s'.processed == s.processed
    && s'.processedCount == s.processedCount && s'.invalid == s.invalid && s'.workerDuplicates == s.workerDuplicates
    && s'.emptyPolls == s.emptyPolls && s'.depthTotal == s.depthTotal && s'.depthSamples == s.depthSamples
    && s'.overflows == s.overflows && s'.ring.popped == s.ring.popped && s'.ring.consumer == s.ring.consumer
  }

  /**
   From s to s' the subscriber has done with the fragment what one call of the fast path does: dropped it
   for want of a buffer, dropped it as a duplicate, dropped it for want of room, or published it and told
   the checkpoint.
   */
  ghost predicate HandledFragment(st: Settings, s: State, f: Fragment, s': State)
    requires WellTyped(s) && WellTyped(s')
  {
    var (tracker, pass) := Tracking.OnArrival(st.tracking, s.tracker, ArrivalOf(f));
    var free := FreeStack(s.pool);
    var room := |Contents(s.ring)| < st.ringSize - 1;
    var sent := free != [] && pass && room;
    && s'.subscriber.Polling? && s'.ring.producer.Quiet? && s'.fragments == s.fragments + 1
    && s'.tracker == (if free == [] then s.tracker else tracker)
    && s'.checked == s.checked + (if free == [] then [] else [f])
    && s'.allocationFailures == s.allocationFailures + (if free == [] then 1 else 0)
    && s'.queueFull == s.queueFull + (if free != [] && pass && !room then 1 else 0)
    && s'.ring.failures == s.ring.failures + (if free != [] && pass && !room then 1 else 0)
    && s'.received == s.received + (if sent then 1 else 0)
    && FreeStack(s'.pool) == (if sent then free[..|free| - 1] else free)
    && s'.ring.pushed == s.ring.pushed + (if sent then [free[|free| - 1]] else [])
    && s'.sent == s.sent + (if sent then [Received(f)] else [])
    && s'.origin == s.origin + (if sent then [f] else [])
    && s'.updates == s.updates + (if sent then [Update(MessageNumber(Received(f)), f.position, s.received + 1)] else [])
    && SameHandling(s, s')
  }

  /** How many turns that takes. */
  function FragmentTurns(st: Settings, s: State, f: Fragment): nat
    requires WellTyped(s)
  {
    if s.pool.count == 0 then 2
    else if !Tracking.OnArrival(st.tracking, s.tracker, ArrivalOf(f)).1 then 6
    else if |Contents(s.ring)| >= st.ringSize - 1 then 8
    else 11
  }

  /** The state four turns on, the window consulted. */
  function Consulted(st: Settings, s: State, f: Fragment): State
    requires WellTyped(s) && s.pool.count > 0
  {
    var buf := s.pool.list[s.pool.count - 1];
    var (tracker, pass) := Tracking.OnArrival(st.tracking, s.tracker, ArrivalOf(f));
    s.(pool := AllocTurn(s.pool, s.pool.count, false).0, memory := Write(s, buf, Received(f)), fragments := s.fragments + 1,
       tracker := tracker, checked := s.checked + [f],
       subscriber := if pass then Enqueuing(f, buf) else Dropping(buf, Duplicate))
  }

  lemma Consults(st: Settings, s: State, f: Fragment)
    requires Owned(st, s) && s.subscriber.Polling? && s.pool.count > 0
    ensures var s4 := Consulted(st, s, f);
            var buf := s.pool.list[s.pool.count - 1];
            && After(st, s, Deliver(f), 4) == s4
            && WithinPool(s4.pool) && FreeStack(s.pool) == FreeStack(s4.pool) + [buf] && |s4.pool.list| == |s.pool.list|
            && s4.pool.count == s.pool.count - 1
            && Read(s4, buf) == Received(f)
  {
    hide InBounds, Tracking.Sound, Tracking.OnArrival, Received, MessageNumber, SubscriberStep, Owned, After, FreeStack;
    Fills(st, s, f);
    TopInPool(st, s);
    var buf := s.pool.list[s.pool.count - 1];
    var s3 := s.(pool := AllocTurn(s.pool, s.pool.count, false).0, memory := Write(s, buf, Received(f)), fragments := s.fragments + 1,
                 subscriber := Checking(f, buf));
    Checks(st, s3, f);
    AfterAfter(st, s, Deliver(f), 3, 1);
  }

  lemma DropsForBuffer(st: Settings, s: State, f: Fragment)
    requires Owned(st, s) && s.subscriber.Polling? && s.pool.count == 0
    ensures HandledFragment(st, s, f, After(st, s, Deliver(f), FragmentTurns(st, s, f)))
  {
    hide InBounds, Tracking.Sound, Tracking.OnArrival, Received, MessageNumber, SubscriberStep, After, Contents, Owned;
    FindsNone(st, s, f);
    RingFacts(st, s);
  }

  lemma DropsDuplicate(st: Settings, s: State, f: Fragment)
    requires Owned(st, s) && s.subscriber.Polling? && s.pool.count > 0
    requires !Tracking.OnArrival(st.tracking, s.tracker, ArrivalOf(f)).1
    ensures HandledFragment(st, s, f, After(st, s, Deliver(f), FragmentTurns(st, s, f)))
  {
    hide InBounds, Tracking.Sound, Tracking.OnArrival, Received, MessageNumber, SubscriberStep, After, Contents,
      Owned, AllocTurn, FreeTurn, FreeStack,
      Write, Read;
    Consults(st, s, f);
    TopInPool(st, s);
    RingFacts(st, s);
    PutsBack(st, Consulted(st, s, f), f);
    AfterAfter(st, s, Deliver(f), 4, 2);
  }

  lemma DropsForRoom(st: Settings, s: State, f: Fragment)
    requires Owned(st, s) && s.subscriber.Polling? && s.pool.count > 0
    requires Tracking.OnArrival(st.tracking, s.tracker, ArrivalOf(f)).1 && |Contents(s.ring)| >= st.ringSize - 1
    ensures HandledFragment(st, s, f, After(st, s, Deliver(f), FragmentTurns(st, s, f)))
  {
    hide InBounds, Tracking.Sound, Tracking.OnArrival, Received, MessageNumber, SubscriberStep, After, Contents,
      Owned, AllocTurn, FreeTurn, FreeStack,
      Write, Read, SpscRing.Inv;
    Consults(st, s, f);
    TopInPool(st, s);
    RingFacts(st, s);
    AtMostFull(s.ring);
    var s4 := Consulted(st, s, f);
    IsRefused(st, s4, f);
    AfterAfter(st, s, Deliver(f), 4, 2);
    var s6 := s4.(ring := s.ring.(failures := s.ring.failures + 1), fates := s.fates + [false], subscriber := Dropping(s4.subscriber.buf, NoRoom));
    PutsBack(st, s6, f);
    AfterAfter(st, s, Deliver(f), 6, 2);
  }

  lemma AtMostFull(r: Ring<nat>)
    requires SpscRing.Inv(r)
    ensures |Contents(r)| <= Size(r) - 1
  {
    hide LiveSlots, ProducerInv, ConsumerInv, Wrap;
  }

  lemma Publishes(st: Settings, s: State, f: Fragment)
    requires Owned(st, s) && s.subscriber.Polling? && s.pool.count > 0
    requires Tracking.OnArrival(st.tracking, s.tracker, ArrivalOf(f)).1 && |Contents(s.ring)| < st.ringSize - 1
    ensures HandledFragment(st, s, f, After(st, s, Deliver(f), FragmentTurns(st, s, f)))
  {
    hide InBounds, Tracking.Sound, Tracking.OnArrival, Received, MessageNumber, SubscriberStep, After, Contents,
      Owned, AllocTurn, FreeTurn, FreeStack,
      Write, SpscRing.Inv, Enqueue;
    Consults(st, s, f);
    TopInPool(st, s);
    RingFacts(st, s);
    var s4 := Consulted(st, s, f);
    var buf := s4.subscriber.buf;
    IsTaken(st, s4, f);
    AfterAfter(st, s, Deliver(f), 4, 5);
    EnqueueSteps(s.ring, buf);
    FiveEnqueueSteps(s.ring, buf);
    var s9 := s4.(ring := Enqueue(s.ring, buf, 5), fates := s.fates + [true], origin := s.origin + [f],
                  sent := s.sent + [Received(f)], subscriber := Sent(f, buf));
    Tells(st, s9, f);
    AfterAfter(st, s, Deliver(f), 9, 2);
  }

  lemma HandlesFragment(st: Settings, s: State, f: Fragment)
    requires Owned(st, s) && s.subscriber.Polling?
    ensures HandledFragment(st, s, f, After(st, s, Deliver(f), FragmentTurns(st, s, f)))
  {
    hide HandledFragment, FragmentTurns, After, Owned, Tracking.OnArrival, Contents;
    if s.pool.count == 0 {
      DropsForBuffer(st, s, f);
    } else if !Tracking.OnArrival(st.tracking, s.tracker, ArrivalOf(f)).1 {
      DropsDuplicate(st, s, f);
    } else if |Contents(s.ring)| >= st.ringSize - 1 {
      DropsForRoom(st, s, f);
    } else {
      Publishes(st, s, f);
    }
  }

  /**
   The subscriber's progress: from every reachable state in which it is between fragments, left alone it
   is between fragments again after 2, 6, 8 or 11 turns, and has done what one call of the fast path does.
   */
  lemma {:induction false} SubscriberProgress(st: Settings, schedule: seq<Turn>, f: Fragment)
    requires st.ringSize >= 2 && Pipeline.Run(st, schedule).subscriber.Polling?
    ensures var s := Pipeline.Run(st, schedule);
            HandledFragment(st, s, f, Pipeline.Run(st, schedule + Turns(Deliver(f), FragmentTurns(st, s, f))))
  {
    hide Pipeline.Run, Turns, After, HandledFragment, FragmentTurns, Owned;
    var s := Pipeline.Run(st, schedule);
    RunOwned(st, schedule);
    HandlesFragment(st, s, f);
    RunAfter(st, schedule, Deliver(f), FragmentTurns(st, s, f));
  }

  /** A bound on the turns the subscriber needs to be between fragments. */
  function SubscriberRank(s: State): nat {
    match s.subscriber
    case Polling => 0
    case Reporting(_, _) => 1
    case Freeing(_, _, expected) => if expected == s.pool.count then 1 else 2
    case Sent(_, _) => 2
    case Dropping(_, _) => 2
    case Enqueuing(_, _) => (
      match s.ring.producer
      case Published => 3
      case Stored(_, _) => 4
      case HasRoom(_, _) => 5
      case HasTail(_, _) => 6
      case Quiet => 7)
    case Checking(_, _) => 8
    case Filling(_, _) => 9
    case Allocating(_, expected) => if expected == 0 then 1 else if expected == s.pool.count then 10 else 11
  }

  lemma SubscriberRankDrops(st: Settings, s: State, f: Fragment)
    requires Owned(st, s) && !s.subscriber.Polling?
    ensures SubscriberRank(SubscriberStep(st, s, f, false)) < SubscriberRank(s)
  {
    hide InBounds, Tracking.Sound, ProducerStep, SpscRing.Inv, Counted, BusyWith, Partitioned, Tracking.OnArrival,
      Received, Read, Write,
      MessageNumber;
    if s.subscriber.Enqueuing? {
      ProducerAdvances(s.ring, s.subscriber.buf);
    }
  }

  lemma ProducerAdvances(r: Ring<nat>, buf: nat)
    requires InBounds(r) && r.kind.PointerRing?
    ensures var (r', e) := ProducerStep(r, buf);
            && (r.producer.Quiet? ==> r'.producer.HasTail? && e.Silent?)
            && (r.producer.HasTail? ==> (e.Silent? && r'.producer.HasRoom?) || e.Full?)
            && (r.producer.HasRoom? ==> r'.producer.Stored? && e.Silent?)
            && (r.producer.Stored? ==> r'.producer.Published? && e.Pushed?)
            && (r.producer.Published? ==> r'.producer.Quiet? && e.Silent?)
  {
    hide Wrap;
  }

  lemma WorkerFrame(st: Settings, s: State, glitch: bool)
    requires WellTyped(s)
    ensures SameReceiving(s, WorkerStep(st, s, glitch))
  {
    hide InBounds, Tracking.Sound, ConsumerStep, FreeTurn, SeenFilter.Check, Key, Read;
    ConsumerKeeps(s.ring);
  }

  lemma ConsumerKeeps(r: Ring<nat>)
    requires InBounds(r)
    ensures var r' := ConsumerStep(r).0;
            r'.pushed == r.pushed && r'.producer == r.producer && r'.failures == r.failures
  {
  }

  lemma {:induction false} AfterInvariant(st: Settings, s: State, turn: Turn, n: nat)
    requires Delivery.Invariant(st, s)
    ensures Delivery.Invariant(st, After(st, s, turn, n))
  {
    hide Delivery.Invariant, Pipeline.Step;
    if n > 0 {
      AfterInvariant(st, s, turn, n - 1);
      StepInvariant(st, After(st, s, turn, n - 1), turn);
    }
  }

  lemma OwnedState(st: Settings, s: State)
    requires Delivery.Invariant(st, s)
    ensures Owned(st, s)
  {
    hide Owned, Linked, Filtered, Tracked, Reported;
  }

  lemma {:induction false} WorkerFinishesFrom(st: Settings, s: State) returns (n: nat)
    requires Delivery.Invariant(st, s)
    ensures n <= WorkerRank(s) && After(st, s, WORK, n).worker.Looping? && SameReceiving(s, After(st, s, WORK, n))
    decreases WorkerRank(s)
  {
    hide Delivery.Invariant, Owned, WorkerStep, WorkerRank, After;
    OneTurn(st, s, WORK, 0);
    if s.worker.Looping? {
      n := 0;
    } else {
      var s' := WorkerStep(st, s, false);
      OwnedState(st, s);
      WorkerRankDrops(st, s);
      WorkerFrame(st, s, false);
      StepInvariant(st, s, WORK);
      n := WorkerFinishesFrom(st, s');
      AfterAfter(st, s, WORK, 1, n);
      n := n + 1;
    }
  }

  lemma {:induction false} SubscriberFinishesFrom(st: Settings, s: State, f: Fragment) returns (n: nat)
    requires Delivery.Invariant(st, s)
    ensures n <= SubscriberRank(s) && After(st, s, Deliver(f), n).subscriber.Polling?
    decreases SubscriberRank(s)
  {
    hide Delivery.Invariant, Owned, SubscriberStep, SubscriberRank, After;
    OneTurn(st, s, Deliver(f), 0);
    if s.subscriber.Polling? {
      n := 0;
    } else {
      var s' := SubscriberStep(st, s, f, false);
      OwnedState(st, s);
      SubscriberRankDrops(st, s, f);
      StepInvariant(st, s, Deliver(f));
      n := SubscriberFinishesFrom(st, s', f);
      AfterAfter(st, s, Deliver(f), 1, n);
      n := n + 1;
    }
  }

  lemma RankBounds(s: State)
    ensures WorkerRank(s) <= 12 && SubscriberRank(s) <= 11
  {
  }

  /**
   Neither thread ever waits for the other: from every reachable state at most 12 turns of the worker
   alone bring it between messages, and at most 11 of the subscriber alone bring it between fragments.
   */
  lemma {:induction false} NeverStuck(st: Settings, schedule: seq<Turn>, f: Fragment) returns (m: nat, n: nat)
    requires st.ringSize >= 2
    ensures m <= 12 && Pipeline.Run(st, schedule + Turns(WORK, m)).worker.Looping?
    ensures n <= 11 && Pipeline.Run(st, schedule + Turns(Deliver(f), n)).subscriber.Polling?
  {
    hide Pipeline.Run, Turns, After, Delivery.Invariant, WorkerRank, SubscriberRank;
    var s := Pipeline.Run(st, schedule);
    RunInvariant(st, schedule);
    RankBounds(s);
    m := WorkerFinishesFrom(st, s);
    RunAfter(st, schedule, WORK, m);
    n := SubscriberFinishesFrom(st, s, f);
    RunAfter(st, schedule, Deliver(f), n);
  }

  /** A pool exchange that fails, without cause or because the other thread came first, only reloads the count. */
  lemma {:induction false} FailedExchangeReloads(st: Settings, s: State, f: Fragment, glitch: bool)
    requires WellTyped(s)
    ensures s.subscriber.Allocating? && s.subscriber.expected > 0 && (glitch || s.subscriber.expected != s.pool.count)
            ==> SubscriberStep(st, s, f, glitch) == s.(subscriber := Allocating(s.subscriber.fragment, s.pool.count))
    ensures s.subscriber.Freeing? && s.subscriber.expected < |s.pool.list| && (glitch || s.subscriber.expected != s.pool.count)
            ==> SubscriberStep(st, s, f, glitch) == s.(subscriber := Freeing(s.subscriber.buf, s.subscriber.why, s.pool.count))
    ensures s.worker.Returning? && s.worker.expected < |s.pool.list| && (glitch || s.worker.expected != s.pool.count)
            ==> WorkerStep(st, s, glitch) == s.(worker := Returning(s.worker.held, s.worker.done, s.pool.count))
  {
    hide InBounds, Tracking.Sound, ProducerStep, ConsumerStep, Tracking.OnArrival, Received, MessageNumber,
      SeenFilter.Check, Key, Read;
  }

  // ----- draining -----

  /** The worker is between messages and has nothing left to take. */
  ghost predicate Drained(st: Settings, s: State) {
    && s.worker.Looping? && |s.ring.popped| == |s.ring.pushed| == |s.sent|
    && s.processed == Through(s.sent, st.seenLimit)
    && s.pool.count + |SubscriberHand(s)| == st.poolSize
  }

  lemma DrainedFacts(st: Settings, s: State)
    requires Delivery.Invariant(st, s) && s.worker.Looping? && |s.ring.popped| == |s.ring.pushed|
    ensures Drained(st, s)
  {
    hide Owned, Linked, Filtered, Tracked, Reported, Through, SubscriberHand, Contents;
    LoopingFacts(st, s);
    assert s.sent[..|s.ring.popped|] == s.sent;
    OwnedState(st, s);
    WholePool(st, s);
  }

  lemma WholePool(st: Settings, s: State)
    requires Owned(st, s)
    ensures s.pool.count + |Contents(s.ring)| + |SubscriberHand(s)| + |WorkerHand(s)| == st.poolSize
  {
    hide Contents, SubscriberHand, WorkerHand, Shaped, Partitioned;
    PartitionSize(st, s);
  }

  lemma OneFewer(st: Settings, s: State, s': State)
    requires WellTyped(s) && WellTyped(s') && |s.ring.popped| < |s.ring.pushed| == |s.sent| && HandledOldest(st, s, s')
    ensures s'.worker.Looping? && |s'.ring.popped| == |s.ring.popped| + 1 && |s'.ring.pushed| == |s.ring.pushed|
    ensures SameReceiving(s, s')
  {
    hide Repeats, InBounds, Tracking.Sound, FreeStack;
  }

  lemma SameTwice(s: State, s': State, s'': State)
    requires SameReceiving(s, s') && SameReceiving(s', s'')
    ensures SameReceiving(s, s'')
  {
  }

  lemma {:induction false} DrainsFrom(st: Settings, s: State) returns (n: nat)
    requires Delivery.Invariant(st, s) && s.worker.Looping?
    ensures Drained(st, After(st, s, WORK, n)) && SameReceiving(s, After(st, s, WORK, n))
    ensures |s.ring.popped| <= |s.ring.pushed| && n <= 13 * (|s.ring.pushed| - |s.ring.popped|)
    decreases |s.ring.pushed| - |s.ring.popped|
  {
    hide Delivery.Invariant, After, Drained, Repeats, HandledOldest, SameReceiving, WellTyped;
    QueueLengths(st, s);
    if |s.ring.popped| == |s.ring.pushed| {
      n := 0;
      NothingYet(st, s);
      DrainedFacts(st, s);
    } else {
      var m := if Repeats(st, s) then 12 else 13;
      var s' := After(st, s, WORK, m);
      HandlesOldest(st, s);
      OneFewer(st, s, s');
      AfterInvariant(st, s, WORK, m);
      var k := DrainsFrom(st, s');
      AfterAfter(st, s, WORK, m, k);
      SameTwice(s, s', After(st, s', WORK, k));
      n := m + k;
    }
  }

  lemma QueueLengths(st: Settings, s: State)
    requires Delivery.Invariant(st, s)
    ensures |s.ring.popped| <= |s.ring.pushed| == |s.sent| && WellTyped(s)
  {
    hide Owned, Filtered, Tracked, Reported, Read, WorkerHand, HandedOver;
  }

  lemma NothingYet(st: Settings, s: State)
    requires WellTyped(s)
    ensures After(st, s, WORK, 0) == s && SameReceiving(s, s)
  {
  }

  /**
   The worker alone empties the queue: from every reachable state so many turns of it leave nothing
   queued, every published message filtered and processed, and every buffer the subscriber does not hold
   in the pool.
   */
  lemma {:induction false} WorkerDrains(st: Settings, schedule: seq<Turn>) returns (n: nat)
    requires st.ringSize >= 2
    ensures var s := Pipeline.Run(st, schedule);
            var s' := Pipeline.Run(st, schedule + Turns(WORK, n));
            && SameReceiving(s, s') && Contents(s'.ring) == []
            && s'.processed == Through(s.sent, st.seenLimit) && Handled(s') == |s.sent|
            && s'.pool.count + |SubscriberHand(s')| == st.poolSize
  {
    hide Pipeline.Run, Turns, After, Delivery.Invariant, WorkerRank, Owned, Linked, Filtered, Tracked, Reported,
      Through, SubscriberHand;
    var s := Pipeline.Run(st, schedule);
    RunInvariant(st, schedule);
    var m := WorkerFinishesFrom(st, s);
    AfterInvariant(st, s, WORK, m);
    var k := DrainsFrom(st, After(st, s, WORK, m));
    AfterAfter(st, s, WORK, m, k);
    n := m + k;
    RunAfter(st, schedule, WORK, n);
    RunInvariant(st, schedule + Turns(WORK, n));
    LoopingFacts(st, After(st, s, WORK, n));
  }

  // ----- completeness -----

  /** Both threads between messages, nothing queued, and nothing ever refused. */
  ghost predicate AtRest(st: Settings, s: State, fragments: seq<Fragment>) {
    && s.subscriber.Polling? && s.worker.Looping? && |s.ring.popped| == |s.ring.pushed|
    && s.checked == fragments && s.origin == Passed(st, fragments)
    && s.allocationFailures == 0 && s.queueFull == 0 && s.ring.failures == 0
  }

  /** From rest, a fragment and the message it may become leave the pipeline at rest. */
  lemma ServesOne(st: Settings, s: State, fragments: seq<Fragment>, f: Fragment) returns (m: nat, n: nat)
    requires Delivery.Invariant(st, s) && AtRest(st, s, fragments) && st.poolSize >= 1 && st.ringSize >= 2
    ensures AtRest(st, After(st, After(st, s, Deliver(f), m), WORK, n), fragments + [f])
  {
    hide Delivery.Invariant, After, Passed, Through, Owned, Linked, Filtered, Tracked, Reported, SubscriberHand,
      TrackerAfter, Tracking.OnArrival,
      Received, Contents, Drained, FreeStack;
    DrainedFacts(st, s);
    NobodyHolds(st, s);
    PassedNext(st, s, fragments, f);
    m := FragmentTurns(st, s, f);
    HandlesFragment(st, s, f);
    var s1 := After(st, s, Deliver(f), m);
    AfterInvariant(st, s, Deliver(f), m);
    n := DrainsFrom(st, s1);
    DrainedCounts(st, After(st, s1, WORK, n));
  }

  lemma DrainedCounts(st: Settings, s: State)
    requires Drained(st, s)
    ensures s.worker.Looping? && |s.ring.popped| == |s.ring.pushed|
  {
    hide Through, SubscriberHand;
  }

  lemma NobodyHolds(st: Settings, s: State)
    requires Delivery.Invariant(st, s) && s.subscriber.Polling? && s.worker.Looping?
    requires |s.ring.popped| == |s.ring.pushed|
    ensures Owned(st, s) && |FreeStack(s.pool)| == s.pool.count == st.poolSize && Contents(s.ring) == []
  {
    hide Owned, Linked, Filtered, Tracked, Reported, Through;
    LoopingFacts(st, s);
    WholePool(st, s);
  }

  lemma PassedNext(st: Settings, s: State, fragments: seq<Fragment>, f: Fragment)
    requires Delivery.Invariant(st, s) && s.checked == fragments
    ensures Passed(st, fragments + [f])
            == Passed(st, fragments) + if Tracking.OnArrival(st.tracking, s.tracker, ArrivalOf(f)).1 then [f] else []
  {
    hide Owned, Linked, Filtered, Reported, TrackerAfter, Tracking.OnArrival, Received, Read, Accounted;
    assert (fragments + [f])[..|fragments|] == fragments;
  }

  lemma {:induction false} ServesAll(st: Settings, fragments: seq<Fragment>) returns (schedule: seq<Turn>)
    requires st.poolSize >= 1 && st.ringSize >= 2
    ensures AtRest(st, Pipeline.Run(st, schedule), fragments)
    decreases |fragments|
  {
    hide Delivery.Invariant, After, AtRest, Turns;
    if fragments == [] {
      schedule := [];
      AtRestInitially(st);
    } else {
      var init, f := fragments[..|fragments| - 1], fragments[|fragments| - 1];
      var shorter := ServesAll(st, init);
      RunInvariant(st, shorter);
      var m, n := ServesOne(st, Pipeline.Run(st, shorter), init, f);
      RunAfter(st, shorter, Deliver(f), m);
      RunAfter(st, shorter + Turns(Deliver(f), m), WORK, n);
      schedule := shorter + Turns(Deliver(f), m) + Turns(WORK, n);
      assert init + [f] == fragments;
    }
  }

  lemma AtRestInitially(st: Settings)
    requires st.ringSize >= 2
    ensures AtRest(st, Pipeline.Run(st, []), [])
  {
  }

  /**
   Nothing the filters let through need be lost: with one buffer and two slots already, for every list of
   fragments some schedule has all of it received, nothing refused, and exactly the filters' result processed.
   */
  lemma {:induction false} ServesEverything(st: Settings, fragments: seq<Fragment>) returns (schedule: seq<Turn>)
    requires st.poolSize >= 1 && st.ringSize >= 2
    ensures var s := Pipeline.Run(st, schedule);
            && s.checked == fragments && s.allocationFailures == 0 && s.queueFull == 0
            && s.processed == Through(Guarantees.Messages(Passed(st, fragments)), st.seenLimit)
            && s.subscriber.Polling? && s.worker.Looping? && Handled(s) == |s.sent| == |s.origin|
  {
    hide Delivery.Invariant, Pipeline.Run, Passed, Through, Guarantees.Messages;
    schedule := ServesAll(st, fragments);
    var s := Pipeline.Run(st, schedule);
    RunInvariant(st, schedule);
    Guarantees.SentAsReceived(st, s);
    LoopingFacts(st, s);
    assert s.sent[..|s.ring.popped|] == s.sent;
  }
}

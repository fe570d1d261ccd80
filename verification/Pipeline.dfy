/**
 The receive pipeline as a two-thread protocol: the subscriber's fast path (AeronSubscriber.cpp) and
 the worker's loop (MessageWorker.cpp) over the shared pool, ring and buffers, one atomic access to
 shared memory per step. Buffers are named by their index in the pool. A compare-exchange of the pool
 and the slot access that follows it are one step.
 */
module Pipeline {
  import opened Bytes
  import opened MessageFrame
  import opened Wrappers
  import opened SpscRing
  import opened BufferPools
  import Tracking
  import SeenFilter

  datatype Settings = Settings(poolSize: nat, ringSize: nat, tracking: Tracking.Config, seenLimit: nat)

  /** A fragment, its position, the clock reading at its arrival, and the archive's answer should it open a gap. */
  datatype Fragment = Fragment(data: seq<byte>, position: int64, time: nat, found: bool)

  datatype Reason = Duplicate | NoRoom

  /** Where the subscriber thread stands in handleMessageFastPath. */
  datatype Subscriber =
    | Polling
    | Allocating(fragment: Fragment, expected: nat)
    | Filling(fragment: Fragment, buf: nat)
    | Checking(fragment: Fragment, buf: nat)
    | Enqueuing(fragment: Fragment, buf: nat)
    | Sent(fragment: Fragment, buf: nat)
    | Reporting(fragment: Fragment, buf: nat)
    | Dropping(buf: nat, why: Reason)
    | Freeing(buf: nat, why: Reason, expected: nat)

  /** Where the worker thread stands in its loop. */
  datatype Worker =
    | Looping
    | Sizing(head: nat)
    | Dequeuing
    | Holding(pointer: Option<nat>)
    | Deciding(held: nat)
    | Processing(held: nat)
    | Releasing(held: nat, done: bool)
    | Returning(held: nat, done: bool, expected: nat)

  /** One call of the checkpoint's update. */
  datatype Update = Update(sequence: int64, position: int64, count: nat)

  datatype State = State(
    pool: Pool<nat>, ring: Ring<nat>, memory: seq<Content>,
    subscriber: Subscriber, tracker: Tracking.Tracker,
    fragments: nat, allocationFailures: nat, queueFull: nat, received: nat,
    worker: Worker, seen: set<nat>,
    processedCount: nat, invalid: nat, workerDuplicates: nat, emptyPolls: nat,
    depthTotal: nat, depthSamples: nat, overflows: nat,
    // history of the run: fragments that got a buffer; for those offered to the queue, whether it took them;
    // those published and what their buffers then held; messages processed; checkpoint calls
    checked: seq<Fragment>, fates: seq<bool>, origin: seq<Fragment>, sent: seq<Content>, processed: seq<Content>, updates: seq<Update>)

  function AllBuffers(n: nat): (all: seq<nat>)
    ensures |all| == n
  {
    seq(n, i => i)
  }

  function Init(st: Settings): State {
    State(Fresh(AllBuffers(st.poolSize)), SpscRing.Init(PointerRing, st.ringSize),
          seq(st.poolSize, _ => Content(BLANK, [])),
          Polling, Tracking.Start(st.tracking), 0, 0, 0, 0,
          Looping, {}, 0, 0, 0, 0, 0, 0, 0, [], [], [], [], [], [])
  }

  function Read(s: State, buf: nat): Content {
    if buf < |s.memory| then s.memory[buf] else Content(BLANK, [])
  }

  function Write(s: State, buf: nat, c: Content): (memory: seq<Content>)
    ensures |memory| == |s.memory|
  {
    if buf < |s.memory| then s.memory[buf := c] else s.memory
  }

  function Received(f: Fragment): Content {
    AsReceived(f.data, f.time)
  }

  /** The worker's key: the header's number as a uint64. */
  function Key(c: Content): nat {
    Parse(c.header).sequenceNumber
  }

  /** validateMessage accepts whatever is not null. */
  function ValidateMessage(buf: Option<nat>): bool {
    buf.Some?
  }

  predicate WellTyped(s: State) {
    InBounds(s.ring) && WithinPool(s.pool) && Tracking.Sound(s.tracker)
  }

  function SubscriberStep(st: Settings, s: State, fragment: Fragment, glitch: bool): (s': State)
    requires WellTyped(s)
    ensures WellTyped(s')
  {
    match s.subscriber
    case Polling => s.(subscriber := Allocating(fragment, s.pool.count), fragments := s.fragments + 1)
    case Allocating(f, expected) => (
      var (pool, outcome) := AllocTurn(s.pool, expected, glitch);
      match outcome
      case Exhausted => s.(pool := pool, subscriber := Polling, allocationFailures := s.allocationFailures + 1)
      case AllocRetry(count) => s.(pool := pool, subscriber := Allocating(f, count))
      case Got(buf) => s.(pool := pool, subscriber := Filling(f, buf)))
    case Filling(f, buf) =>
      s.(memory := Write(s, buf, Received(f)), subscriber := Checking(f, buf))
    case Checking(f, buf) =>
      var arrival := Tracking.Arrival(MessageNumber(Read(s, buf)), f.found);
      var (tracker, pass) := Tracking.OnArrival(st.tracking, s.tracker, arrival);
      s.(tracker := tracker, checked := s.checked + [f],
         subscriber := if pass then Enqueuing(f, buf) else Dropping(buf, Duplicate))
    case Enqueuing(f, buf) =>
      var (ring, event) := ProducerStep(s.ring, buf);
      s.(ring := ring,
         fates := if event.Pushed? then s.fates + [true] else if event.Full? then s.fates + [false] else s.fates,
         origin := if event.Pushed? then s.origin + [f] else s.origin,
         sent := if event.Pushed? then s.sent + [Read(s, buf)] else s.sent,
         subscriber := if event.Full? then Dropping(buf, NoRoom)
                       else if ring.producer.Quiet? then Sent(f, buf) else s.subscriber)
    case Sent(f, buf) => s.(received := s.received + 1, subscriber := Reporting(f, buf))
    case Reporting(f, buf) =>
      s.(updates := s.updates + [Update(MessageNumber(Read(s, buf)), f.position, s.received)], subscriber := Polling)
    case Dropping(buf, why) => s.(subscriber := Freeing(buf, why, s.pool.count))
    case Freeing(buf, why, expected) => (
      var (pool, outcome) := FreeTurn(s.pool, expected, buf, glitch);
      match outcome
      case FreeRetry(count) => s.(pool := pool, subscriber := Freeing(buf, why, count))
      case Freed => s.(pool := pool, subscriber := Polling, queueFull := s.queueFull + if why.NoRoom? then 1 else 0)
      case Overflow => s.(pool := pool, subscriber := Polling, overflows := s.overflows + 1))
  }

  function WorkerStep(st: Settings, s: State, glitch: bool): (s': State)
    requires WellTyped(s)
    ensures WellTyped(s')
  {
    match s.worker
    case Looping => s.(worker := Sizing(s.ring.head))
    case Sizing(h) =>
      s.(worker := Dequeuing, depthTotal := s.depthTotal + (s.ring.tail - h) % Size(s.ring),
         depthSamples := s.depthSamples + 1)
    case Dequeuing =>
      var (ring, event) := ConsumerStep(s.ring);
      if event.Empty? then s.(ring := ring, worker := Looping, emptyPolls := s.emptyPolls + 1)
      else if ring.consumer.Resting? && ring.popped != []
      then s.(ring := ring, worker := Holding(Some(ring.popped[|ring.popped| - 1])))
      else s.(ring := ring)
    case Holding(pointer) =>
      if ValidateMessage(pointer) then s.(worker := Deciding(pointer.value))
      else s.(worker := Looping, invalid := s.invalid + 1)
    case Deciding(buf) =>
      var (seen, duplicate) := SeenFilter.Check(s.seen, Key(Read(s, buf)), st.seenLimit);
      if duplicate then s.(seen := seen, worker := Releasing(buf, false), workerDuplicates := s.workerDuplicates + 1)
      else s.(seen := seen, worker := Processing(buf))
    case Processing(buf) => s.(processed := s.processed + [Read(s, buf)], worker := Releasing(buf, true))
    case Releasing(buf, done) => s.(worker := Returning(buf, done, s.pool.count))
    case Returning(buf, done, expected) => (
      var (pool, outcome) := FreeTurn(s.pool, expected, buf, glitch);
      match outcome
      case FreeRetry(count) => s.(pool := pool, worker := Returning(buf, done, count))
      case Freed => s.(pool := pool, worker := Looping, processedCount := s.processedCount + if done then 1 else 0)
      case Overflow =>
        s.(pool := pool, worker := Looping, processedCount := s.processedCount + (if done then 1 else 0),
           overflows := s.overflows + 1))
  }

  datatype Turn = Subscribe(fragment: Fragment, glitch: bool) | Work(glitch: bool)

  function Step(st: Settings, s: State, turn: Turn): (s': State)
    requires WellTyped(s)
    ensures WellTyped(s')
  {
    match turn
    case Subscribe(f, glitch) => SubscriberStep(st, s, f, glitch)
    case Work(glitch) => WorkerStep(st, s, glitch)
  }

  function Run(st: Settings, schedule: seq<Turn>): (s: State)
    requires st.ringSize >= 2
    ensures WellTyped(s)
    decreases |schedule|
  {
    if schedule == [] then Init(st) else Step(st, Run(st, schedule[..|schedule| - 1]), schedule[|schedule| - 1])
  }
}

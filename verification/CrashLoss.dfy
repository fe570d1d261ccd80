/**
 What a crash loses: the pipeline fed from the recorded stream, life after life, each life starting where
 the checkpoint file tells it to. The file's position is that of any update the life has made, or the
 one it started from, which is what module Recovery allows it to be.
 */
module CrashLoss {
  import opened Bytes
  import opened MessageFrame
  import opened SpscRing
  import opened BufferPools
  import opened Pipeline
  import opened Ownership
  import opened Delivery
  import opened Duplicates
  import Guarantees
  import Progress
  import QueueBound
  import Recovery
  import SeenFilter
  import Tracking

  /** The recorded fragments in order, and the start position given on the command line. */
  datatype World = World(stream: seq<Fragment>, cliPosition: int64)

  function Recorded(w: World): Recovery.World {
    Recovery.World(
      seq(|w.stream|, i requires 0 <= i < |w.stream| => Recovery.Message(MessageNumber(FromAeron(w.stream[i].data)), w.stream[i].position)),
      w.cliPosition)
  }

  /** Where a life starts that finds this position in the file. */
  function StartFrom(w: World, file: int64): (start: nat)
    ensures start <= |w.stream|
  {
    Recovery.Resume(Recorded(w), file)
  }

  /** A thread's turn; the replay decides which fragment the subscriber gets, the moment decides the rest. */
  datatype Feed = Deliver(found: bool, time: nat, glitch: bool) | Labour(glitch: bool)

  function NextFragment(w: World, i: nat, found: bool, time: nat): Fragment {
    if i < |w.stream| then w.stream[i].(found := found, time := time) else Fragment([], 0, time, found)
  }

  /** The pipeline after these turns, its subscriber polling a replay that began at `start`. */
  function Fed(st: Settings, w: World, start: nat, feeds: seq<Feed>): (s: State)
    requires st.ringSize >= 2
    ensures WellTyped(s)
    decreases |feeds|
  {
    if feeds == [] then Pipeline.Init(st)
    else
      var s := Fed(st, w, start, feeds[..|feeds| - 1]);
      match feeds[|feeds| - 1]
      case Labour(glitch) => WorkerStep(st, s, glitch)
      case Deliver(found, time, glitch) =>
        var i := start + s.fragments;
        if s.subscriber.Polling? && i >= |w.stream| then s
        else SubscriberStep(st, s, NextFragment(w, i, found, time), glitch)
  }

  /** It is one of the pipeline's runs, so all that holds of those holds of it. */
  lemma {:induction false} FedIsRun(st: Settings, w: World, start: nat, feeds: seq<Feed>) returns (schedule: seq<Turn>)
    requires st.ringSize >= 2
    ensures Fed(st, w, start, feeds) == Pipeline.Run(st, schedule)
    decreases |feeds|
  {
    hide SubscriberStep, WorkerStep, Pipeline.Init, NextFragment;
    if feeds == [] {
      schedule := [];
    } else {
      var init := feeds[..|feeds| - 1];
      schedule := FedIsRun(st, w, start, init);
      var s := Fed(st, w, start, init);
      match feeds[|feeds| - 1] {
        case Labour(glitch) => schedule := RunSnoc(st, schedule, Work(glitch));
        case Deliver(found, time, glitch) =>
          if !(s.subscriber.Polling? && start + s.fragments >= |w.stream|) {
            schedule := RunSnoc(st, schedule, Subscribe(NextFragment(w, start + s.fragments, found, time), glitch));
          }
      }
    }
  }

  lemma RunSnoc(st: Settings, schedule: seq<Turn>, turn: Turn) returns (longer: seq<Turn>)
    requires st.ringSize >= 2
    ensures Pipeline.Run(st, longer) == Pipeline.Step(st, Pipeline.Run(st, schedule), turn)
  {
    hide Pipeline.Step;
    longer := schedule + [turn];
    assert longer[..|schedule|] == schedule;
  }

  // ----- published fragments in stream order -----

  /** Positions grow along the stream and are positive. */
  ghost predicate Ascending(w: World) {
    Recovery.Ascending(Recorded(w).stream)
  }

  /** The place in the stream of the fragment with this position. */
  function Spot(w: World, f: Fragment): int {
    Recovery.StartIndex(Recorded(w).stream, f.position) - 1
  }

  ghost predicate At(w: World, f: Fragment, i: nat) {
    i < |w.stream| && w.stream[i].position == f.position
  }

  lemma SpotOf(w: World, f: Fragment, i: nat)
    requires Ascending(w) && At(w, f, i)
    ensures Spot(w, f) == i
  {
    var stream := Recorded(w).stream;
    assert stream[i].position == f.position;
    Recovery.StartIndexSplits(stream, f.position, i);
    if i + 1 < |stream| {
      Recovery.StartIndexSplits(stream, f.position, i + 1);
    }
  }

  /** The subscriber has a fragment that it has not published. */
  predicate InHand(s: State) {
    s.subscriber.Allocating? || s.subscriber.Filling? || s.subscriber.Checking?
    || (s.subscriber.Enqueuing? && !s.ring.producer.Published?)
  }

  /** The i-th delivery is the stream's next; what is published is published in that order. */
  ghost predicate InOrder(w: World, start: nat, s: State) {
    && start + s.fragments <= |w.stream|
    && (InHand(s) || HandedOver(s) ==> s.fragments > 0 && At(w, s.subscriber.fragment, start + s.fragments - 1))
    && (forall v | 0 <= v < |s.origin| :: start <= Spot(w, s.origin[v]) < start + s.fragments && At(w, s.origin[v], Spot(w, s.origin[v])))
    && (forall u, v | 0 <= u < v < |s.origin| :: Spot(w, s.origin[u]) < Spot(w, s.origin[v]))
    && (InHand(s) ==> forall v | 0 <= v < |s.origin| :: Spot(w, s.origin[v]) < start + s.fragments - 1)
  }

  lemma PollInOrder(st: Settings, w: World, start: nat, s: State, found: bool, time: nat, glitch: bool)
    requires WellTyped(s) && InOrder(w, start, s) && s.subscriber.Polling? && start + s.fragments < |w.stream|
    ensures InOrder(w, start, SubscriberStep(st, s, NextFragment(w, start + s.fragments, found, time), glitch))
  {
    hide InBounds, Tracking.Sound, Spot;
    assert At(w, NextFragment(w, start + s.fragments, found, time), start + s.fragments);
  }

  lemma EnqueueInOrder(st: Settings, w: World, start: nat, s: State, f: Fragment, glitch: bool)
    requires Owned(st, s) && Ascending(w) && InOrder(w, start, s) && s.subscriber.Enqueuing?
    ensures InOrder(w, start, SubscriberStep(st, s, f, glitch))
  {
    hide Owned, InBounds, Tracking.Sound, ProducerStep, SpscRing.Inv, Counted, BusyWith, Contents, Read, Spot, At,
      Ascending;
    RingFacts(st, s);
    ProducerEffect(s.ring, s.subscriber.buf);
    if !s.ring.producer.Published? {
      SpotOf(w, s.subscriber.fragment, start + s.fragments - 1);
    }
  }

  lemma SameOrder(w: World, start: nat, s: State, s': State)
    requires InOrder(w, start, s) && s'.fragments == s.fragments && s'.origin == s.origin
    requires InHand(s') ==> InHand(s) && s'.subscriber.fragment == s.subscriber.fragment
    requires HandedOver(s') ==> HandedOver(s) && s'.subscriber.fragment == s.subscriber.fragment
    ensures InOrder(w, start, s')
  {
    hide Spot, At;
  }

  lemma DeliverInOrder(st: Settings, w: World, start: nat, s: State, found: bool, time: nat, glitch: bool)
    requires Owned(st, s) && Ascending(w) && InOrder(w, start, s)
    requires !(s.subscriber.Polling? && start + s.fragments >= |w.stream|)
    ensures InOrder(w, start, SubscriberStep(st, s, NextFragment(w, start + s.fragments, found, time), glitch))
  {
    hide Owned, Ascending, InOrder, InBounds, AllocTurn, FreeTurn, Tracking.Sound, Tracking.OnArrival, ProducerStep,
      SpscRing.Inv,
      Counted, BusyWith, MessageNumber, Received, Write, Read, NextFragment;
    var f := NextFragment(w, start + s.fragments, found, time);
    if s.subscriber.Polling? {
      PollInOrder(st, w, start, s, found, time, glitch);
    } else if s.subscriber.Enqueuing? {
      EnqueueInOrder(st, w, start, s, f, glitch);
    } else {
      RingFacts(st, s);
      SameOrder(w, start, s, SubscriberStep(st, s, f, glitch));
    }
  }

  lemma LabourInOrder(st: Settings, w: World, start: nat, s: State, glitch: bool)
    requires Owned(st, s) && InOrder(w, start, s)
    ensures InOrder(w, start, WorkerStep(st, s, glitch))
  {
    hide Owned, InOrder, InBounds, FreeTurn, Tracking.Sound, ConsumerStep, SeenFilter.Check, Key, SpscRing.Inv,
      Counted, BusyWith,
      Contents, Read;
    RingFacts(st, s);
    if s.worker.Dequeuing? {
      ConsumerEffect(s.ring);
    }
    SameOrder(w, start, s, WorkerStep(st, s, glitch));
  }

  lemma {:induction false} FedInOrder(st: Settings, w: World, start: nat, feeds: seq<Feed>)
    requires st.ringSize >= 2 && Ascending(w) && start <= |w.stream|
    ensures InOrder(w, start, Fed(st, w, start, feeds))
    decreases |feeds|
  {
    hide SubscriberStep, WorkerStep, Owned, Spot, Ascending, NextFragment;
    if feeds != [] {
      var init := feeds[..|feeds| - 1];
      var s := Fed(st, w, start, init);
      FedInOrder(st, w, start, init);
      var schedule := FedIsRun(st, w, start, init);
      RunOwned(st, schedule);
      match feeds[|feeds| - 1] {
        case Labour(glitch) => LabourInOrder(st, w, start, s, glitch);
        case Deliver(found, time, glitch) =>
          if !(s.subscriber.Polling? && start + s.fragments >= |w.stream|) {
            DeliverInOrder(st, w, start, s, found, time, glitch);
          }
      }
    }
  }

  // ----- what one life leaves behind -----

  /** What becomes of a published message in a life that ends in a crash. */
  datatype Fate = Processed | Repeated | Unhandled

  ghost function FateOf(st: Settings, s: State, v: nat): Fate
    requires v < |s.sent|
  {
    if v >= Handled(s) then Unhandled
    else if SeenFilter.Fresh(Keys(s.sent), v, st.seenLimit) then Processed
    else Repeated
  }

  lemma FedFates(st: Settings, w: World, start: nat, feeds: seq<Feed>, v: nat)
    requires st.ringSize >= 2 && v < |Fed(st, w, start, feeds).sent|
    ensures var s := Fed(st, w, start, feeds);
            0 <= Handled(s) <= |s.sent| && (v in ProcessedAt(st, s) <==> FateOf(st, s, v) == Processed)
  {
    hide Fed, Pipeline.Run, Handled, SeenFilter.Fresh, ProcessedAt, Keys;
    var schedule := FedIsRun(st, w, start, feeds);
    ProcessedWhere(st, schedule);
    PlacesAreFresh(st, Fed(st, w, start, feeds), v);
  }

  lemma FedSent(st: Settings, w: World, start: nat, feeds: seq<Feed>)
    requires st.ringSize >= 2
    ensures var s := Fed(st, w, start, feeds);
            && |s.sent| == |s.origin| && 0 <= Handled(s) <= |s.sent|
            && (forall a | 0 <= a < |ProcessedAt(st, s)| :: ProcessedAt(st, s)[a] < |s.sent|)
  {
    hide Fed, Pipeline.Run, Handled, ProcessedAt, Through, Decided, InProcessing, WorkerHand, Received;
    var schedule := FedIsRun(st, w, start, feeds);
    Guarantees.ProcessedIsFilterOfSent(st, schedule);
    ProcessedWhere(st, schedule);
  }

  lemma FedUpdates(st: Settings, w: World, start: nat, feeds: seq<Feed>)
    requires st.ringSize >= 2
    ensures var s := Fed(st, w, start, feeds);
            && |s.updates| <= |s.origin| && |s.updates| - Handled(s) <= QueueBound.Capacity(st)
            && forall i | 0 <= i < |s.updates| :: s.updates[i].position == s.origin[i].position
  {
    hide Fed, Pipeline.Run, Handled, Received, MessageNumber;
    var schedule := FedIsRun(st, w, start, feeds);
    Guarantees.CheckpointTold(st, schedule);
    QueueBound.ReportedAheadBound(st, schedule);
  }

  /** The file's position after a crash: that of the update it had caught up with, if of any. */
  function Kept(s: State, kept: nat, file: int64): int64 {
    if 0 < kept <= |s.updates| then s.updates[kept - 1].position else file
  }

  function CaughtUp(s: State, kept: nat): nat {
    if kept <= |s.updates| then kept else 0
  }

  lemma StartsAfter(w: World, f: Fragment, i: nat)
    requires Ascending(w) && At(w, f, i)
    ensures StartFrom(w, f.position) == i + 1
  {
    SpotOf(w, f, i);
    assert Recorded(w).stream[i].position > 0;
  }

  /**
   The next life starts no earlier than this one did and no later than this one got; of what this one
   published it is past exactly what the checkpoint had caught up with.
   */
  lemma {:induction false} NextStart(st: Settings, w: World, file: int64, feeds: seq<Feed>, kept: nat)
    requires st.ringSize >= 2 && Ascending(w)
    ensures var start := StartFrom(w, file);
            var s := Fed(st, w, start, feeds);
            var next := StartFrom(w, Kept(s, kept, file));
            && start <= next <= start + s.fragments <= |w.stream|
            && CaughtUp(s, kept) <= |s.origin|
            && (forall v | 0 <= v < |s.origin| :: start <= Spot(w, s.origin[v]) && (Spot(w, s.origin[v]) < next <==> v < CaughtUp(s, kept)))
            && (forall u, v | 0 <= u < v < |s.origin| :: Spot(w, s.origin[u]) < Spot(w, s.origin[v]))
  {
    hide Fed, Spot, Ascending, StartFrom, Handled;
    var start := StartFrom(w, file);
    var s := Fed(st, w, start, feeds);
    FedInOrder(st, w, start, feeds);
    FedUpdates(st, w, start, feeds);
    var u := CaughtUp(s, kept);
    if u > 0 {
      var last := s.origin[u - 1];
      assert Kept(s, kept, file) == last.position;
      StartsAfter(w, last, Spot(w, last));
    }
  }

  /** The fragment at this place of the stream was published in this life, as its v-th message. */
  ghost predicate PublishedAs(w: World, s: State, i: nat, v: nat) {
    v < |s.origin| && Spot(w, s.origin[v]) == i
  }

  /** This life gave the fragment at this place of the stream to processMessage. */
  ghost predicate ProcessedHere(st: Settings, w: World, s: State, i: nat) {
    0 <= Handled(s) <= |s.sent| && exists v: nat :: PublishedAs(w, s, i, v) && v in ProcessedAt(st, s)
  }

  // ----- life after life -----

  /** A life's turns, and which of its updates the file had caught up with when it crashed; 0 for none. */
  datatype Life = Life(feeds: seq<Feed>, kept: nat)

  function FileAfter(st: Settings, w: World, file: int64, lives: seq<Life>): int64
    requires st.ringSize >= 2
    decreases |lives|
  {
    if lives == [] then file
    else
      var before := FileAfter(st, w, file, lives[..|lives| - 1]);
      var last := lives[|lives| - 1];
      Kept(Fed(st, w, StartFrom(w, before), last.feeds), last.kept, before)
  }

  /** Where the n-th life starts, and how it ends. */
  function StartOf(st: Settings, w: World, file: int64, lives: seq<Life>, n: nat): nat
    requires st.ringSize >= 2 && n <= |lives|
  {
    StartFrom(w, FileAfter(st, w, file, lives[..n]))
  }

  function EndOf(st: Settings, w: World, file: int64, lives: seq<Life>, n: nat): State
    requires st.ringSize >= 2 && n < |lives|
  {
    Fed(st, w, StartOf(st, w, file, lives, n), lives[n].feeds)
  }

  lemma LifeEnds(st: Settings, w: World, file: int64, lives: seq<Life>, n: nat)
    requires st.ringSize >= 2 && Ascending(w) && n < |lives|
    ensures var s := EndOf(st, w, file, lives, n);
            var start, next := StartOf(st, w, file, lives, n), StartOf(st, w, file, lives, n + 1);
            && start <= next <= start + s.fragments <= |w.stream|
            && CaughtUp(s, lives[n].kept) <= |s.origin| == |s.sent|
            && 0 <= Handled(s) <= |s.sent|
            && (forall v | 0 <= v < |s.origin| ::
                  start <= Spot(w, s.origin[v]) && (Spot(w, s.origin[v]) < next <==> v < CaughtUp(s, lives[n].kept)))
            && (forall u, v | 0 <= u < v < |s.origin| :: Spot(w, s.origin[u]) < Spot(w, s.origin[v]))
  {
    hide Fed, Spot, Ascending, StartFrom, Handled, Kept, CaughtUp, ProcessedAt;
    var before := FileAfter(st, w, file, lives[..n]);
    var upTo := lives[..n + 1];
    assert upTo[..|upTo| - 1] == lives[..n];
    assert FileAfter(st, w, file, upTo) == Kept(Fed(st, w, StartFrom(w, before), lives[n].feeds), lives[n].kept, before);
    NextStart(st, w, before, lives[n].feeds, lives[n].kept);
    FedSent(st, w, StartFrom(w, before), lives[n].feeds);
  }

  lemma {:induction false} StartsRise(st: Settings, w: World, file: int64, lives: seq<Life>, m: nat, n: nat)
    requires st.ringSize >= 2 && Ascending(w) && m <= n <= |lives|
    ensures StartOf(st, w, file, lives, m) <= StartOf(st, w, file, lives, n)
    decreases n
  {
    hide StartOf, Fed, Spot, Ascending, Handled;
    if m < n {
      StartsRise(st, w, file, lives, m, n - 1);
      LifeEnds(st, w, file, lives, n - 1);
    }
  }

  /** Every place of the stream that a later life will not see again was passed by the crash of one life. */
  lemma {:induction false} PassedByOneLife(st: Settings, w: World, file: int64, lives: seq<Life>, i: nat) returns (n: nat)
    requires st.ringSize >= 2 && Ascending(w)
    requires StartOf(st, w, file, lives, 0) <= i < StartOf(st, w, file, lives, |lives|)
    ensures n < |lives| && StartOf(st, w, file, lives, n) <= i < StartOf(st, w, file, lives, n + 1)
  {
    hide StartOf;
    n := 0;
    while i >= StartOf(st, w, file, lives, n + 1)
      invariant n < |lives| && StartOf(st, w, file, lives, n) <= i
      decreases |lives| - n
    {
      n := n + 1;
    }
  }

  /** No life from there on publishes it. */
  lemma NotSeenAgain(st: Settings, w: World, file: int64, lives: seq<Life>, i: nat, m: nat, v: nat)
    requires st.ringSize >= 2 && Ascending(w) && m < |lives| && i < StartOf(st, w, file, lives, m)
    ensures !PublishedAs(w, EndOf(st, w, file, lives, m), i, v)
  {
    hide StartOf, EndOf, Spot, Ascending, Handled;
    LifeEnds(st, w, file, lives, m);
  }

  /** A crash leaves no more messages behind unhandled than the pool and the ring can hold. */
  lemma CrashLosesAtMost(st: Settings, w: World, file: int64, lives: seq<Life>, n: nat)
    requires st.ringSize >= 2 && n < |lives|
    ensures var s := EndOf(st, w, file, lives, n);
            CaughtUp(s, lives[n].kept) - Handled(s) <= QueueBound.Capacity(st)
  {
    hide Fed, StartOf, Handled, QueueBound.Capacity;
    FedUpdates(st, w, StartOf(st, w, file, lives, n), lives[n].feeds);
    FedSent(st, w, StartOf(st, w, file, lives, n), lives[n].feeds);
  }

  /** Why a life whose crash passed a fragment has not processed it. */
  ghost predicate MissedBy(st: Settings, w: World, s: State, kept: nat, i: nat) {
    && 0 <= Handled(s) <= |s.sent| == |s.origin|
    // it was dropped before the queue, or it was published, the checkpoint had caught up with it, and the
    // worker had not handled it or took it for a repeat
    && ((forall v: nat :: !PublishedAs(w, s, i, v))
        || exists v: nat :: PublishedAs(w, s, i, v) && v < CaughtUp(s, kept) && FateOf(st, s, v) != Processed)
  }

  lemma {:induction false} MissedIff(st: Settings, w: World, file: int64, lives: seq<Life>, n: nat, i: nat)
    requires st.ringSize >= 2 && Ascending(w) && n < |lives|
    requires StartOf(st, w, file, lives, n) <= i < StartOf(st, w, file, lives, n + 1)
    ensures var s := EndOf(st, w, file, lives, n);
            !ProcessedHere(st, w, s, i) <==> MissedBy(st, w, s, lives[n].kept, i)
  {
    hide Fed, StartOf, Spot, Ascending, Handled, ProcessedAt, FateOf, CaughtUp;
    LifeEnds(st, w, file, lives, n);
    var s := EndOf(st, w, file, lives, n);
    forall v: nat | PublishedAs(w, s, i, v)
      ensures v < CaughtUp(s, lives[n].kept) && (v in ProcessedAt(st, s) <==> FateOf(st, s, v) == Processed)
    {
      FedFates(st, w, StartOf(st, w, file, lives, n), lives[n].feeds, v);
    }
    forall u: nat, v: nat | PublishedAs(w, s, i, u) && PublishedAs(w, s, i, v)
      ensures u == v
    {
    }
  }

  /**
   The loss, exactly, over any number of crashes: a fragment that no future life will see again has been
   processed by no life if and only if no life before the one whose crash passed it processed it, and that
   one dropped it, took it for a repeat, or crashed with it unhandled behind the checkpoint.
   */
  lemma {:induction false} NeverProcessedIff(st: Settings, w: World, file: int64, lives: seq<Life>, n: nat, i: nat)
    requires st.ringSize >= 2 && Ascending(w) && n < |lives|
    requires StartOf(st, w, file, lives, n) <= i < StartOf(st, w, file, lives, n + 1)
    ensures (forall m: nat | m < |lives| :: !ProcessedHere(st, w, EndOf(st, w, file, lives, m), i))
            <==> (forall m: nat | m < n :: !ProcessedHere(st, w, EndOf(st, w, file, lives, m), i))
                 && MissedBy(st, w, EndOf(st, w, file, lives, n), lives[n].kept, i)
  {
    hide StartOf, EndOf, PublishedAs, Ascending, Handled, ProcessedAt, MissedBy;
    MissedIff(st, w, file, lives, n, i);
    forall m: nat | n < m < |lives|
      ensures !ProcessedHere(st, w, EndOf(st, w, file, lives, m), i)
    {
      StartsRise(st, w, file, lives, n + 1, m);
      forall v: nat
        ensures !PublishedAs(w, EndOf(st, w, file, lives, m), i, v)
      {
        NotSeenAgain(st, w, file, lives, i, m, v);
      }
    }
  }

  // ----- the loss is reached -----

  /** The fragments a run's subscriber took from its polls. */
  function Offered(st: Settings, schedule: seq<Turn>): seq<Fragment>
    requires st.ringSize >= 2
    decreases |schedule|
  {
    if schedule == [] then []
    else
      var init := schedule[..|schedule| - 1];
      var turn := schedule[|schedule| - 1];
      Offered(st, init) + if turn.Subscribe? && Pipeline.Run(st, init).subscriber.Polling? then [turn.fragment] else []
  }

  lemma TakesWhenPolling(st: Settings, s: State, turn: Turn)
    requires WellTyped(s)
    ensures Pipeline.Step(st, s, turn).fragments == s.fragments + if turn.Subscribe? && s.subscriber.Polling? then 1 else 0
  {
    hide InBounds, ProducerStep, ConsumerStep, AllocTurn, FreeTurn, Tracking.OnArrival, Tracking.Sound, Received,
      Read, Write,
      MessageNumber, SeenFilter.Check, Key;
  }

  lemma {:induction false} OfferedCount(st: Settings, schedule: seq<Turn>)
    requires st.ringSize >= 2
    ensures |Offered(st, schedule)| == Pipeline.Run(st, schedule).fragments
    decreases |schedule|
  {
    hide Pipeline.Step;
    if schedule != [] {
      OfferedCount(st, schedule[..|schedule| - 1]);
      TakesWhenPolling(st, Pipeline.Run(st, schedule[..|schedule| - 1]), schedule[|schedule| - 1]);
    }
  }

  /** The same turns, the replay in place of the schedule's fragments. */
  function FeedOf(turn: Turn): Feed {
    match turn
    case Subscribe(f, glitch) => Deliver(f.found, f.time, glitch)
    case Work(glitch) => Labour(glitch)
  }

  function FeedsOf(schedule: seq<Turn>): (feeds: seq<Feed>)
    ensures |feeds| == |schedule|
  {
    seq(|schedule|, i requires 0 <= i < |schedule| => FeedOf(schedule[i]))
  }

  lemma OnlyPollingLooks(st: Settings, s: State, f: Fragment, g: Fragment, glitch: bool)
    requires WellTyped(s) && !s.subscriber.Polling?
    ensures SubscriberStep(st, s, f, glitch) == SubscriberStep(st, s, g, glitch)
  {
    hide InBounds, ProducerStep, AllocTurn, FreeTurn, Tracking.OnArrival, Tracking.Sound, Received, Read, Write,
      MessageNumber;
  }

  /** Every run is fed by a replay of the fragments it took, whatever else that replay goes on with. */
  lemma {:induction false} RunIsFed(st: Settings, w: World, start: nat, schedule: seq<Turn>)
    requires st.ringSize >= 2 && start <= |w.stream| && Offered(st, schedule) <= w.stream[start..]
    ensures Fed(st, w, start, FeedsOf(schedule)) == Pipeline.Run(st, schedule)
    decreases |schedule|
  {
    hide SubscriberStep, WorkerStep, Pipeline.Init;
    if schedule != [] {
      var init := schedule[..|schedule| - 1];
      var turn := schedule[|schedule| - 1];
      RunIsFed(st, w, start, init);
      OfferedCount(st, init);
      assert FeedsOf(schedule)[..|schedule| - 1] == FeedsOf(init);
      var s := Pipeline.Run(st, init);
      match turn {
        case Work(_) =>
        case Subscribe(f, glitch) =>
          if s.subscriber.Polling? {
            assert w.stream[start..][s.fragments] == Offered(st, schedule)[s.fragments] == f;
          } else {
            OnlyPollingLooks(st, s, f, NextFragment(w, start + s.fragments, f.found, f.time), glitch);
          }
      }
    }
  }

  /** With a buffer for every fragment, those that were taken are those that were checked and the one on its way there. */
  lemma {:induction false} OfferedAreChecked(st: Settings, schedule: seq<Turn>)
    requires st.ringSize >= 2
    ensures var s := Pipeline.Run(st, schedule);
            s.allocationFailures == 0 ==> Offered(st, schedule) == s.checked + Unchecked(s)
    decreases |schedule|
  {
    hide SubscriberStep, WorkerStep, Pipeline.Init, Unchecked;
    if schedule == [] {
      NothingChecked(st);
    } else {
      var init := schedule[..|schedule| - 1];
      var s := Pipeline.Run(st, init);
      OfferedAreChecked(st, init);
      match schedule[|schedule| - 1] {
        case Subscribe(f, glitch) => DeliveryChecks(st, s, f, glitch);
        case Work(glitch) =>
          LabourChecksNothing(st, s, glitch);
          SameUnchecked(s, WorkerStep(st, s, glitch));
      }
    }
  }

  lemma SameUnchecked(s: State, s': State)
    requires s'.subscriber == s.subscriber
    ensures Unchecked(s') == Unchecked(s)
  {
  }

  lemma NothingChecked(st: Settings)
    ensures Pipeline.Init(st).checked == [] && Unchecked(Pipeline.Init(st)) == []
  {
  }

  /** A fragment between its delivery and its check. */
  function Unchecked(s: State): seq<Fragment> {
    if s.subscriber.Allocating? || s.subscriber.Filling? || s.subscriber.Checking? then [s.subscriber.fragment] else []
  }

  lemma DeliveryChecks(st: Settings, s: State, f: Fragment, glitch: bool)
    requires WellTyped(s)
    ensures var s' := SubscriberStep(st, s, f, glitch);
            && s'.allocationFailures >= s.allocationFailures
            && (s'.allocationFailures == 0
                ==> s.checked + Unchecked(s) + (if s.subscriber.Polling? then [f] else []) == s'.checked + Unchecked(s'))
  {
    hide InBounds, ProducerStep, FreeTurn, Tracking.OnArrival, Tracking.Sound, Received, Read, Write, MessageNumber;
  }

  lemma LabourChecksNothing(st: Settings, s: State, glitch: bool)
    requires WellTyped(s)
    ensures var s' := WorkerStep(st, s, glitch);
            s'.allocationFailures == s.allocationFailures && s'.checked == s.checked && s'.subscriber == s.subscriber
  {
    hide InBounds, ConsumerStep, FreeTurn, Tracking.Sound, Read, SeenFilter.Check, Key;
  }

  /** Rising places below the number of places are the places themselves. */
  lemma {:induction false} PlacesFill(places: seq<int>, v: nat)
    requires forall i | 0 <= i < |places| :: 0 <= places[i] < |places|
    requires forall i, j | 0 <= i < j < |places| :: places[i] < places[j]
    requires v < |places|
    ensures places[v] == v
  {
    AtLeastIndex(places, v);
    AtMostIndex(places, v);
  }

  lemma {:induction false} AtLeastIndex(places: seq<int>, v: nat)
    requires forall i | 0 <= i < |places| :: 0 <= places[i]
    requires forall i, j | 0 <= i < j < |places| :: places[i] < places[j]
    requires v < |places|
    ensures places[v] >= v
  {
    if v > 0 {
      AtLeastIndex(places, v - 1);
    }
  }

  lemma {:induction false} AtMostIndex(places: seq<int>, v: nat)
    requires forall i | 0 <= i < |places| :: places[i] < |places|
    requires forall i, j | 0 <= i < j < |places| :: places[i] < places[j]
    requires v < |places|
    ensures places[v] <= v
    decreases |places| - v
  {
    if v < |places| - 1 {
      AtMostIndex(places, v + 1);
    }
  }

  /** The stream of the first k numbered fragments, one position apart. */
  function NumberedWorld(k: nat): World {
    World(QueueBound.FirstNumbered(k), 0)
  }

  lemma NumberedAscends(k: nat)
    requires k < TWO_TO_63
    ensures Ascending(NumberedWorld(k)) && StartFrom(NumberedWorld(k), 0) == 0
    ensures forall i | 0 <= i < k :: NumberedWorld(k).stream[i].position == i + 1
  {
    hide Frame, MessageNumber, FromAeron;
    var recorded := Recorded(NumberedWorld(k)).stream;
    assert forall i | 0 <= i < k :: recorded[i].position == i + 1;
    if k > 0 {
      Recovery.StartIndexSplits(recorded, 0, 0);
    }
  }

  lemma NumberedLife(st: Settings, k: nat) returns (feeds: seq<Feed>)
    requires 2 <= st.ringSize < TWO_TO_63 && k <= QueueBound.Capacity(st)
    ensures var s := Fed(st, NumberedWorld(k), 0, feeds);
            && |s.updates| == k && Handled(s) == 0 && |s.origin| == k && s.fragments == k
  {
    hide Pipeline.Run, Fed, QueueBound.FirstNumbered, Handled, Offered, FeedsOf;
    var schedule := QueueBound.CheckpointRunsAhead(st, k);
    OfferedAreChecked(st, schedule);
    OfferedCount(st, schedule);
    assert QueueBound.FirstNumbered(k) + [] == QueueBound.FirstNumbered(k);
    RunIsFed(st, NumberedWorld(k), 0, schedule);
    assert NumberedWorld(k).stream[0..] == NumberedWorld(k).stream;
    feeds := FeedsOf(schedule);
  }

  /** All k are published in stream order, and with none handled none is processed. */
  lemma NumberedLost(st: Settings, k: nat, feeds: seq<Feed>, i: nat)
    requires st.ringSize >= 2 && i < k < TWO_TO_63
    requires var s := Fed(st, NumberedWorld(k), 0, feeds);
             Handled(s) == 0 && |s.origin| == k && s.fragments == k
    ensures var s := Fed(st, NumberedWorld(k), 0, feeds);
            PublishedAs(NumberedWorld(k), s, i, i) && !ProcessedHere(st, NumberedWorld(k), s, i)
  {
    hide Fed, Spot, StartFrom, Handled, Ascending, ProcessedAt, QueueBound.FirstNumbered;
    var w := NumberedWorld(k);
    var s := Fed(st, w, 0, feeds);
    NumberedAscends(k);
    FedInOrder(st, w, 0, feeds);
    FedSent(st, w, 0, feeds);
    var places := seq(k, v requires 0 <= v < k => Spot(w, s.origin[v]));
    PlacesFill(places, i);
    assert places[i] == i;
    forall v: nat | PublishedAs(w, s, i, v)
      ensures v !in ProcessedAt(st, s)
    {
      FedFates(st, w, 0, feeds, v);
    }
  }

  /**
   The bound on what one crash loses is met: for every number of fragments up to it there is a stream of
   so many, all delivered to one life, all behind the checkpoint when it crashes, and none ever processed.
   */
  lemma LossReached(st: Settings, k: nat) returns (life: Life)
    requires 2 <= st.ringSize < TWO_TO_63 && 0 < k <= QueueBound.Capacity(st)
    ensures var w := NumberedWorld(k);
            var s := EndOf(st, w, 0, [life], 0);
            && Ascending(w) && StartOf(st, w, 0, [life], 0) == 0 && StartOf(st, w, 0, [life], 1) == k == |w.stream|
            && CaughtUp(s, life.kept) == k && Handled(s) == 0
            && forall i: nat | i < k :: PublishedAs(w, s, i, i) && !ProcessedHere(st, w, s, i)
  {
    hide Fed, Spot, StartFrom, Handled, Ascending, ProcessedAt, QueueBound.FirstNumbered;
    var w := NumberedWorld(k);
    NumberedAscends(k);
    var feeds := NumberedLife(st, k);
    life := Life(feeds, k);
    assert [life][..0] == [];
    LifeEnds(st, w, 0, [life], 0);
    forall i: nat | i < k
      ensures PublishedAs(w, Fed(st, w, 0, feeds), i, i) && !ProcessedHere(st, w, Fed(st, w, 0, feeds), i)
    {
      NumberedLost(st, k, feeds, i);
    }
    assert PublishedAs(w, Fed(st, w, 0, feeds), k - 1, k - 1);
  }

  /**
   And a life need lose nothing: from any start some turns take it through the rest of the stream, with
   everything the two filters let through processed and the checkpoint caught up.
   */
  lemma {:induction false} LifeServes(st: Settings, w: World, start: nat) returns (feeds: seq<Feed>)
    requires st.poolSize >= 1 && st.ringSize >= 2 && start <= |w.stream|
    ensures var s := Fed(st, w, start, feeds);
            && s.checked == w.stream[start..] && s.fragments == |w.stream| - start
            && s.processed == Through(Guarantees.Messages(Passed(st, w.stream[start..])), st.seenLimit)
            && |s.updates| == |s.sent| == Handled(s)
  {
    hide Pipeline.Run, Fed, Offered, FeedsOf, Passed, Through, Guarantees.Messages, Delivery.Invariant, Handled;
    var schedule := Progress.ServesEverything(st, w.stream[start..]);
    var s := Pipeline.Run(st, schedule);
    OfferedAreChecked(st, schedule);
    OfferedCount(st, schedule);
    assert s.checked + [] == s.checked;
    RunIsFed(st, w, start, schedule);
    Guarantees.CheckpointTold(st, schedule);
    feeds := FeedsOf(schedule);
  }
}

/**
 What the pipeline delivers: in every reachable state the messages given to processMessage are the
 sequential filters applied to the messages received, byte for byte.
 */
module Delivery {
  import opened Bytes
  import opened MessageFrame
  import opened Wrappers
  import opened SpscRing
  import opened BufferPools
  import opened Pipeline
  import opened Ownership
  import SeenFilter
  import Tracking

  // ----- the sequential specification -----

  function ArrivalOf(f: Fragment): Tracking.Arrival {
    Tracking.Arrival(MessageNumber(Received(f)), f.found)
  }

  function Arrivals(checked: seq<Fragment>): (arrivals: seq<Tracking.Arrival>)
    ensures |arrivals| == |checked|
  {
    seq(|checked|, i requires 0 <= i < |checked| => ArrivalOf(checked[i]))
  }

  function TrackerAfter(st: Settings, checked: seq<Fragment>): (t: Tracking.Tracker)
    ensures Tracking.Sound(t)
  {
    Tracking.After(st.tracking, Tracking.Start(st.tracking), Arrivals(checked))
  }

  /** The fragments that pass the subscriber's duplicate window, in order. */
  function Passed(st: Settings, checked: seq<Fragment>): seq<Fragment>
    decreases |checked|
  {
    if checked == [] then []
    else
      var init := checked[..|checked| - 1];
      var f := checked[|checked| - 1];
      Passed(st, init)
      + if Tracking.OnArrival(st.tracking, TrackerAfter(st, init), ArrivalOf(f)).1 then [f] else []
  }

  /** Those of the fragments the queue took. */
  function Select(fragments: seq<Fragment>, fates: seq<bool>): seq<Fragment>
    requires |fragments| == |fates|
    decreases |fates|
  {
    if fates == [] then []
    else
      var k := |fates| - 1;
      Select(fragments[..k], fates[..k]) + if fates[k] then [fragments[k]] else []
  }

  function Refusals(fates: seq<bool>): nat
    decreases |fates|
  {
    if fates == [] then 0 else Refusals(fates[..|fates| - 1]) + if fates[|fates| - 1] then 0 else 1
  }

  function Keys(sent: seq<Content>): (us: seq<nat>)
    ensures |us| == |sent|
  {
    seq(|sent|, i requires 0 <= i < |sent| => Key(sent[i]))
  }

  /** The messages the worker's seen set lets through, in order. */
  function Through(sent: seq<Content>, limit: nat): seq<Content>
    decreases |sent|
  {
    if sent == [] then []
    else
      var init := sent[..|sent| - 1];
      var c := sent[|sent| - 1];
      Through(init, limit) + if Key(c) in SeenFilter.After({}, Keys(init), limit) then [] else [c]
  }

  // ----- the invariant -----

  /** Handed over: published, whether or not the worker has it yet. */
  ghost predicate HandedOver(s: State) {
    s.subscriber.Sent? || s.subscriber.Reporting? || (s.subscriber.Enqueuing? && s.ring.producer.Published?)
  }

  /** Every published buffer still holds the message that was sent in it, until the worker gives it back. */
  ghost predicate Linked(s: State) {
    && |s.sent| == |s.ring.pushed|
    && |s.ring.popped| <= |s.ring.pushed|
    && (forall i | |s.ring.popped| <= i < |s.ring.pushed| :: Read(s, s.ring.pushed[i]) == s.sent[i])
    && (WorkerHand(s) != [] ==> |s.ring.popped| > 0 && Read(s, WorkerHand(s)[0]) == s.sent[|s.ring.popped| - 1])
    && (HandedOver(s) ==> |s.sent| > 0 && Read(s, s.subscriber.buf) == s.sent[|s.sent| - 1])
  }

  /** How many released messages the worker has put through its filter. */
  ghost function Decided(s: State): int {
    |s.ring.popped|
    - (if s.worker.Holding? || s.worker.Deciding? || (s.worker.Dequeuing? && s.ring.consumer.Released?) then 1 else 0)
  }

  ghost function InProcessing(s: State): seq<Content> {
    if s.worker.Processing? then [Read(s, s.worker.held)] else []
  }

  /** How many it is done with: decided on, and given to processMessage if they passed. */
  ghost function Handled(s: State): int {
    Decided(s) - |InProcessing(s)|
  }

  ghost predicate Filtered(st: Settings, s: State) {
    && 0 <= Handled(s) <= Decided(s) <= |s.sent|
    && s.processed == Through(s.sent[..Handled(s)], st.seenLimit)
    && s.seen == SeenFilter.After({}, Keys(s.sent[..Decided(s)]), st.seenLimit)
    && s.processed + InProcessing(s) == Through(s.sent[..Decided(s)], st.seenLimit)
  }

  /** Accepted by the window and not yet published. */
  ghost function InFlight(s: State): seq<Fragment> {
    if s.subscriber.Enqueuing? && !s.ring.producer.Published? then [s.subscriber.fragment] else []
  }

  /** Of the fragments that passed the window, the queue has answered for all but the one in flight. */
  ghost predicate Accounted(s: State, passed: seq<Fragment>) {
    && |s.fates| <= |passed|
    && s.origin == Select(passed[..|s.fates|], s.fates)
    && passed[|s.fates|..] == InFlight(s)
    && s.ring.failures == Refusals(s.fates)
  }

  ghost predicate Tracked(st: Settings, s: State) {
    && (s.subscriber.Checking? || s.subscriber.Enqueuing? || s.subscriber.Sent? || s.subscriber.Reporting?
        ==> Read(s, s.subscriber.buf) == Received(s.subscriber.fragment))
    && s.tracker == TrackerAfter(st, s.checked)
    && |s.sent| == |s.origin| && (forall i | 0 <= i < |s.sent| :: s.sent[i] == Received(s.origin[i]))
    && Accounted(s, Passed(st, s.checked))
  }

  /** The checkpoint is told of every sent message, under its own number and position, in order. */
  ghost predicate Reported(s: State) {
    && |s.sent| == |s.origin|
    && (HandedOver(s) ==> |s.origin| > 0 && s.subscriber.fragment == s.origin[|s.origin| - 1])
    && s.received == |s.sent| - (if s.subscriber.Sent? || (s.subscriber.Enqueuing? && s.ring.producer.Published?) then 1 else 0)
    && |s.updates| == s.received - (if s.subscriber.Reporting? then 1 else 0)
    && forall i | 0 <= i < |s.updates| :: s.updates[i] == Update(MessageNumber(s.sent[i]), s.origin[i].position, i + 1)
  }

  ghost function Invariant(st: Settings, s: State): (b: bool)
    ensures b ==> WellTyped(s)
  {
    Owned(st, s) && Linked(s) && Filtered(st, s) && Tracked(st, s) && Reported(s)
  }

  // ----- facts from ownership -----

  /** A buffer in the subscriber's hand is neither queued nor with the worker. */
  lemma HandIsExclusive(st: Settings, s: State, buf: nat)
    requires Owned(st, s) && SubscriberHand(s) == [buf]
    ensures buf < st.poolSize
    ensures forall i | |s.ring.popped| <= i < |s.ring.pushed| :: s.ring.pushed[i] != buf
    ensures WorkerHand(s) != [] ==> WorkerHand(s)[0] != buf
  {
    hide SubscriberHand, WorkerHand, FreeStack, AllBuffers, Shaped;
    AllBuffersOnce(st.poolSize, buf);
    var queued := Contents(s.ring);
    assert multiset(AllBuffers(st.poolSize))[buf]
        == multiset(FreeStack(s.pool))[buf] + multiset(queued)[buf] + multiset(SubscriberHand(s))[buf] + multiset(WorkerHand(s))[buf];
    assert multiset([buf])[buf] == 1;
    assert buf !in multiset(queued) && buf !in multiset(WorkerHand(s));
    forall i | |s.ring.popped| <= i < |s.ring.pushed|
      ensures s.ring.pushed[i] != buf
    {
      assert queued[i - |s.ring.popped|] == s.ring.pushed[i];
      assert s.ring.pushed[i] in multiset(queued);
    }
  }

  // ----- the published messages stay put -----

  lemma FillingLinked(st: Settings, s: State, f: Fragment, glitch: bool)
    requires Owned(st, s) && Linked(s) && s.subscriber.Filling?
    ensures Linked(SubscriberStep(st, s, f, glitch))
    ensures s.worker.Processing? ==> Read(SubscriberStep(st, s, f, glitch), s.worker.held) == Read(s, s.worker.held)
  {
    hide Owned, InBounds, Tracking.Sound, Received;
    HandIsExclusive(st, s, s.subscriber.buf);
    SameWorkerHand(s, SubscriberStep(st, s, f, glitch));
  }

  lemma EnqueuingLinked(st: Settings, s: State, f: Fragment, glitch: bool)
    requires Owned(st, s) && Linked(s) && s.subscriber.Enqueuing?
    ensures Linked(SubscriberStep(st, s, f, glitch))
  {
    hide Owned, Shaped, SpscRing.Inv, Counted, ProducerStep, InBounds, Tracking.Sound, WorkerHand, Contents, BusyWith;
    RingFacts(st, s);
    ProducerEffect(s.ring, s.subscriber.buf);
    SameWorkerHand(s, SubscriberStep(st, s, f, glitch));
  }

  lemma RingFacts(st: Settings, s: State)
    requires Owned(st, s)
    ensures SpscRing.Inv(s.ring) && Counted(s.ring) && s.ring.kind.PointerRing? && |s.memory| == st.poolSize
    ensures s.subscriber.Enqueuing? ==> BusyWith(s.ring.producer, s.subscriber.buf)
    ensures !s.worker.Dequeuing? ==> s.ring.consumer.Resting?
    ensures s.worker.Holding? ==> s.worker.pointer.Some?
    ensures !s.subscriber.Enqueuing? ==> s.ring.producer.Quiet?
    ensures s.ring.consumer.Released? ==> s.ring.popped != []
  {
    hide SpscRing.Inv, Counted, BusyWith, Partitioned, RoomToReturn, NeverRefused;
  }

  lemma SubscriberLocalLinked(st: Settings, s: State, f: Fragment, glitch: bool)
    requires Owned(st, s) && Linked(s) && !s.subscriber.Filling? && !s.subscriber.Enqueuing?
    ensures Linked(SubscriberStep(st, s, f, glitch))
  {
    hide Owned, SpscRing.Inv, Counted, BusyWith, ProducerStep, InBounds, AllocTurn, FreeTurn, Tracking.OnArrival,
      Tracking.Sound, Received, WorkerHand;
    RingFacts(st, s);
    var s' := SubscriberStep(st, s, f, glitch);
    SameWorkerHand(s, s');
    assert s'.memory == s.memory && s'.ring == s.ring && s'.sent == s.sent;
  }

  lemma SubscriberLinked(st: Settings, s: State, f: Fragment, glitch: bool)
    requires Owned(st, s) && Linked(s)
    ensures Linked(SubscriberStep(st, s, f, glitch))
  {
    hide Owned, Linked, SubscriberStep;
    match s.subscriber {
      case Filling(_, _) => FillingLinked(st, s, f, glitch);
      case Enqueuing(_, _) => EnqueuingLinked(st, s, f, glitch);
      case _ => SubscriberLocalLinked(st, s, f, glitch);
    }
  }

  lemma DequeuingTakes(st: Settings, s: State, glitch: bool)
    requires Owned(st, s) && s.worker.Dequeuing?
    ensures var s' := WorkerStep(st, s, glitch);
            && s'.memory == s.memory && s'.subscriber == s.subscriber && s'.sent == s.sent
            && s'.ring.pushed == s.ring.pushed && s'.ring.producer == s.ring.producer
            && (s'.ring.popped == s.ring.popped
                || (Contents(s.ring) != [] && s'.ring.popped == s.ring.popped + [Contents(s.ring)[0]]))
            && (WorkerHand(s') != [] ==> s'.ring.popped != [] && WorkerHand(s') == [s'.ring.popped[|s'.ring.popped| - 1]])
            && (s'.ring.popped == s.ring.popped ==> WorkerHand(s') == WorkerHand(s))
  {
    hide Owned, SpscRing.Inv, Counted, ConsumerStep, InBounds, Tracking.Sound, BusyWith, Contents;
    RingFacts(st, s);
    ConsumerEffect(s.ring);
  }

  lemma DequeuingLinked(st: Settings, s: State, glitch: bool)
    requires Owned(st, s) && Linked(s) && s.worker.Dequeuing?
    ensures Linked(WorkerStep(st, s, glitch))
  {
    hide Owned, WorkerStep, WorkerHand, Read;
    DequeuingTakes(st, s, glitch);
    SameRead(s, WorkerStep(st, s, glitch));
  }

  lemma WorkerLocalLinked(st: Settings, s: State, glitch: bool)
    requires Owned(st, s) && Linked(s) && !s.worker.Dequeuing?
    ensures Linked(WorkerStep(st, s, glitch))
  {
    hide Owned, ConsumerStep, InBounds, FreeTurn, SeenFilter.Check, Key, Tracking.Sound, SpscRing.Inv, Counted,
      BusyWith;
    RingFacts(st, s);
    var s' := WorkerStep(st, s, glitch);
    assert s'.memory == s.memory && s'.ring == s.ring && s'.sent == s.sent && s'.subscriber == s.subscriber;
    assert WorkerHand(s') == WorkerHand(s) || WorkerHand(s') == [];
  }

  lemma WorkerLinked(st: Settings, s: State, glitch: bool)
    requires Owned(st, s) && Linked(s)
    ensures Linked(WorkerStep(st, s, glitch))
  {
    hide Owned, Linked, WorkerStep;
    if s.worker.Dequeuing? {
      DequeuingLinked(st, s, glitch);
    } else {
      WorkerLocalLinked(st, s, glitch);
    }
  }

  // ----- the worker's filter -----

  lemma ThroughNext(sent: seq<Content>, k: nat, limit: nat)
    requires k < |sent|
    ensures SeenFilter.After({}, Keys(sent[..k + 1]), limit)
            == SeenFilter.Check(SeenFilter.After({}, Keys(sent[..k]), limit), Key(sent[k]), limit).0
    ensures Through(sent[..k + 1], limit)
            == Through(sent[..k], limit)
               + if SeenFilter.Check(SeenFilter.After({}, Keys(sent[..k]), limit), Key(sent[k]), limit).1 then [] else [sent[k]]
  {
    hide Key;
    var prefix := sent[..k + 1];
    assert prefix[..|prefix| - 1] == sent[..k];
    assert Keys(prefix)[..|prefix| - 1] == Keys(sent[..k]);
  }

  /** What the filter depends on. */
  ghost predicate SameFilterView(s: State, s': State) {
    && s'.seen == s.seen && s'.processed == s.processed && Decided(s') == Decided(s)
    && InProcessing(s') == InProcessing(s) && |s'.sent| >= |s.sent| && s'.sent[..|s.sent|] == s.sent
  }

  lemma SameFiltered(st: Settings, s: State, s': State)
    requires Filtered(st, s) && SameFilterView(s, s')
    ensures Filtered(st, s')
  {
    hide SeenFilter.After, Through, Keys;
    assert s'.sent[..Decided(s)] == s.sent[..Decided(s)] && s'.sent[..Handled(s)] == s.sent[..Handled(s)];
  }

  lemma SubscriberFiltered(st: Settings, s: State, f: Fragment, glitch: bool)
    requires Owned(st, s) && Linked(s) && Filtered(st, s)
    ensures Filtered(st, SubscriberStep(st, s, f, glitch))
  {
    hide Owned, Linked, Filtered;
    SubscriberFilterView(st, s, f, glitch);
    SameFiltered(st, s, SubscriberStep(st, s, f, glitch));
  }

  lemma SubscriberFilterView(st: Settings, s: State, f: Fragment, glitch: bool)
    requires Owned(st, s) && Linked(s)
    ensures SameFilterView(s, SubscriberStep(st, s, f, glitch))
  {
    hide Owned, Linked, ProducerStep, InBounds, AllocTurn, FreeTurn, Tracking.OnArrival, Tracking.Sound, Received,
      Read, Write, SpscRing.Inv, Counted, BusyWith;
    var s' := SubscriberStep(st, s, f, glitch);
    RingFacts(st, s);
    match s.subscriber {
      case Filling(_, _) => FillingLinked(st, s, f, glitch);
      case Enqueuing(_, buf) =>
        ProducerEffect(s.ring, buf);
        SameRead(s, s');
      case _ => SameRead(s, s');
    }
  }

  lemma SameRead(s: State, s': State)
    requires s'.memory == s.memory
    ensures forall buf :: Read(s', buf) == Read(s, buf)
  {
  }

  lemma DecidingFiltered(st: Settings, s: State, glitch: bool)
    requires Linked(s) && Filtered(st, s) && WellTyped(s) && s.worker.Deciding?
    ensures Filtered(st, WorkerStep(st, s, glitch))
  {
    hide InBounds, Tracking.Sound, SeenFilter.After, Through, Keys, Key, SeenFilter.Check;
    ThroughNext(s.sent, Decided(s), st.seenLimit);
    var s' := WorkerStep(st, s, glitch);
    assert s.processed + InProcessing(s) == s.processed;
    assert Decided(s') == Decided(s) + 1;
  }

  lemma ProcessingFiltered(st: Settings, s: State, glitch: bool)
    requires Filtered(st, s) && WellTyped(s) && s.worker.Processing?
    ensures Filtered(st, WorkerStep(st, s, glitch))
  {
    hide InBounds, Tracking.Sound, SeenFilter.After, Through, Keys;
    var s' := WorkerStep(st, s, glitch);
    assert s'.processed + InProcessing(s') == s.processed + InProcessing(s);
  }

  lemma WorkerLocalFilterView(st: Settings, s: State, glitch: bool)
    requires Owned(st, s) && !s.worker.Deciding? && !s.worker.Processing?
    ensures SameFilterView(s, WorkerStep(st, s, glitch))
  {
    hide Owned, ConsumerStep, InBounds, FreeTurn, Tracking.Sound, SpscRing.Inv, Counted, BusyWith, Key;
    RingFacts(st, s);
    if s.worker.Dequeuing? {
      ConsumerEffect(s.ring);
    }
  }

  lemma WorkerFiltered(st: Settings, s: State, glitch: bool)
    requires Owned(st, s) && Linked(s) && Filtered(st, s)
    ensures Filtered(st, WorkerStep(st, s, glitch))
  {
    hide Owned, Linked, Filtered, WorkerStep, SameFilterView;
    match s.worker {
      case Deciding(_) => DecidingFiltered(st, s, glitch);
      case Processing(_) => ProcessingFiltered(st, s, glitch);
      case _ =>
        WorkerLocalFilterView(st, s, glitch);
        SameFiltered(st, s, WorkerStep(st, s, glitch));
    }
  }

  // ----- the subscriber's window -----

  lemma PassedNext(st: Settings, checked: seq<Fragment>, f: Fragment)
    ensures TrackerAfter(st, checked + [f]) == Tracking.OnArrival(st.tracking, TrackerAfter(st, checked), ArrivalOf(f)).0
    ensures Passed(st, checked + [f])
            == Passed(st, checked)
               + if Tracking.OnArrival(st.tracking, TrackerAfter(st, checked), ArrivalOf(f)).1 then [f] else []
  {
    hide ArrivalOf, Received, Tracking.OnArrival, Tracking.After;
    var longer := checked + [f];
    assert longer[..|longer| - 1] == checked;
    assert Arrivals(longer) == Arrivals(checked) + [ArrivalOf(f)];
    Tracking.AfterSnoc(st.tracking, Tracking.Start(st.tracking), Arrivals(checked), ArrivalOf(f));
  }

  lemma SameAccounted(s: State, s': State, passed: seq<Fragment>)
    requires Accounted(s, passed)
    requires s'.fates == s.fates && s'.origin == s.origin && s'.ring.failures == s.ring.failures
    requires InFlight(s') == InFlight(s)
    ensures Accounted(s', passed)
  {
  }

  lemma FillingTracked(st: Settings, s: State, f: Fragment, glitch: bool)
    requires Owned(st, s) && Tracked(st, s) && s.subscriber.Filling?
    ensures Tracked(st, SubscriberStep(st, s, f, glitch))
  {
    hide Owned, Accounted, InBounds, Tracking.Sound, TrackerAfter, Passed, Received, SpscRing.Inv, Counted, BusyWith;
    RingFacts(st, s);
    HandIsExclusive(st, s, s.subscriber.buf);
    SameAccounted(s, SubscriberStep(st, s, f, glitch), Passed(st, s.checked));
  }

  lemma CheckingTracked(st: Settings, s: State, f: Fragment, glitch: bool)
    requires Owned(st, s) && Tracked(st, s) && s.subscriber.Checking?
    ensures Tracked(st, SubscriberStep(st, s, f, glitch))
  {
    hide Owned, Accounted, InBounds, Tracking.Sound, Tracking.OnArrival, TrackerAfter, Passed, Received, MessageNumber,
      SpscRing.Inv, Counted, BusyWith;
    RingFacts(st, s);
    PassedNext(st, s.checked, s.subscriber.fragment);
    var s' := SubscriberStep(st, s, f, glitch);
    CheckedAccounted(s, s', Passed(st, s.checked), s'.subscriber.Enqueuing?);
    SameRead(s, s');
  }

  lemma CheckedAccounted(s: State, s': State, passed: seq<Fragment>, pass: bool)
    requires Accounted(s, passed) && s.subscriber.Checking? && s.ring.producer.Quiet?
    requires s'.fates == s.fates && s'.origin == s.origin && s'.ring == s.ring
    requires if pass then s'.subscriber.Enqueuing? && s'.subscriber.fragment == s.subscriber.fragment else s'.subscriber.Dropping?
    ensures Accounted(s', passed + if pass then [s.subscriber.fragment] else [])
  {
    var longer := passed + if pass then [s.subscriber.fragment] else [];
    assert longer[..|s.fates|] == passed == passed[..|s.fates|];
  }

  /** The queue's answer settles the fragment in flight. */
  lemma AnsweredAccounted(s: State, s': State, passed: seq<Fragment>, taken: bool)
    requires Accounted(s, passed) && s.subscriber.Enqueuing? && InFlight(s) == [s.subscriber.fragment]
    requires InFlight(s') == []
    requires s'.fates == s.fates + [taken] && s'.origin == s.origin + if taken then [s.subscriber.fragment] else []
    requires s'.ring.failures == s.ring.failures + if taken then 0 else 1
    ensures Accounted(s', passed)
  {
    var k := |s.fates|;
    assert passed == passed[..k] + passed[k..];
    assert passed[k] == s.subscriber.fragment && |passed| == k + 1;
    assert passed[..k + 1] == passed && s'.fates[..k] == s.fates;
  }

  lemma EnqueuingTracked(st: Settings, s: State, f: Fragment, glitch: bool)
    requires Owned(st, s) && Tracked(st, s) && s.subscriber.Enqueuing?
    ensures Tracked(st, SubscriberStep(st, s, f, glitch))
  {
    hide Owned, Accounted, InBounds, Tracking.Sound, TrackerAfter, Passed, SpscRing.Inv, Counted, BusyWith,
      ProducerStep, Contents,
      Received;
    RingFacts(st, s);
    ProducerEffect(s.ring, s.subscriber.buf);
    var s' := SubscriberStep(st, s, f, glitch);
    var passed := Passed(st, s.checked);
    if s'.fates == s.fates {
      SameAccounted(s, s', passed);
    } else {
      AnsweredAccounted(s, s', passed, s'.fates[|s.fates|]);
    }
    SameRead(s, s');
  }

  lemma SubscriberLocalTracked(st: Settings, s: State, f: Fragment, glitch: bool)
    requires WellTyped(s) && Tracked(st, s)
    requires !s.subscriber.Filling? && !s.subscriber.Checking? && !s.subscriber.Enqueuing?
    ensures Tracked(st, SubscriberStep(st, s, f, glitch))
  {
    hide Accounted, InBounds, AllocTurn, FreeTurn, Tracking.Sound, TrackerAfter, Passed, Received;
    var s' := SubscriberStep(st, s, f, glitch);
    SameAccounted(s, s', Passed(st, s.checked));
  }

  lemma SubscriberTracked(st: Settings, s: State, f: Fragment, glitch: bool)
    requires Owned(st, s) && Tracked(st, s)
    ensures Tracked(st, SubscriberStep(st, s, f, glitch))
  {
    hide Owned, Tracked, SubscriberStep;
    match s.subscriber {
      case Filling(_, _) => FillingTracked(st, s, f, glitch);
      case Checking(_, _) => CheckingTracked(st, s, f, glitch);
      case Enqueuing(_, _) => EnqueuingTracked(st, s, f, glitch);
      case _ => SubscriberLocalTracked(st, s, f, glitch);
    }
  }

  lemma WorkerTracked(st: Settings, s: State, glitch: bool)
    requires Owned(st, s) && Tracked(st, s)
    ensures Tracked(st, WorkerStep(st, s, glitch))
  {
    hide Owned, Accounted, InBounds, FreeTurn, Tracking.Sound, TrackerAfter, Passed, ConsumerStep, SeenFilter.Check,
      Key,
      SpscRing.Inv, Counted, BusyWith, Contents, Received;
    RingFacts(st, s);
    var s' := WorkerStep(st, s, glitch);
    if s.worker.Dequeuing? {
      ConsumerEffect(s.ring);
    }
    SameRead(s, s');
    SameAccounted(s, s', Passed(st, s.checked));
  }

  // ----- the checkpoint's reports -----

  lemma SubscriberReported(st: Settings, s: State, f: Fragment, glitch: bool)
    requires Owned(st, s) && Linked(s) && Reported(s)
    ensures Reported(SubscriberStep(st, s, f, glitch))
  {
    hide Owned, InBounds, AllocTurn, FreeTurn, Tracking.Sound, Tracking.OnArrival, ProducerStep, SpscRing.Inv, Counted,
      BusyWith, Contents, MessageNumber, Received, Write, WorkerHand;
    RingFacts(st, s);
    if s.subscriber.Enqueuing? {
      ProducerEffect(s.ring, s.subscriber.buf);
    }
  }

  lemma WorkerReported(st: Settings, s: State, glitch: bool)
    requires Owned(st, s) && Reported(s)
    ensures Reported(WorkerStep(st, s, glitch))
  {
    hide Owned, InBounds, FreeTurn, Tracking.Sound, ConsumerStep, SeenFilter.Check, Key, SpscRing.Inv, Counted,
      BusyWith, Contents,
      MessageNumber;
    RingFacts(st, s);
    if s.worker.Dequeuing? {
      ConsumerEffect(s.ring);
    }
  }

  // ----- every reachable state -----

  lemma StepInvariant(st: Settings, s: State, turn: Turn)
    requires Invariant(st, s)
    ensures Invariant(st, Pipeline.Step(st, s, turn))
  {
    hide Owned, Linked, Filtered, Tracked, Reported, SubscriberStep, WorkerStep;
    StepOwned(st, s, turn);
    match turn {
      case Subscribe(f, glitch) =>
        SubscriberLinked(st, s, f, glitch);
        SubscriberFiltered(st, s, f, glitch);
        SubscriberTracked(st, s, f, glitch);
        SubscriberReported(st, s, f, glitch);
      case Work(glitch) =>
        WorkerLinked(st, s, glitch);
        WorkerFiltered(st, s, glitch);
        WorkerTracked(st, s, glitch);
        WorkerReported(st, s, glitch);
    }
  }

  lemma {:induction false} RunInvariant(st: Settings, schedule: seq<Turn>)
    requires st.ringSize >= 2
    ensures Invariant(st, Pipeline.Run(st, schedule))
    decreases |schedule|
  {
    hide Owned, Pipeline.Step;
    if schedule == [] {
      InitOwned(st);
    } else {
      hide Invariant;
      RunInvariant(st, schedule[..|schedule| - 1]);
      StepInvariant(st, Pipeline.Run(st, schedule[..|schedule| - 1]), schedule[|schedule| - 1]);
    }
  }
}

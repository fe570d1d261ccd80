/**
 What the receive pipeline guarantees in every reachable state, for every interleaving of its threads.
 */
module Guarantees {
  import opened Bytes
  import opened MessageFrame
  import opened Wrappers
  import opened SpscRing
  import opened BufferPools
  import opened Pipeline
  import opened Ownership
  import opened Delivery
  import SeenFilter
  import Tracking

  // ----- buffers -----

  /** Every buffer is in exactly one place, and no buffer is ever returned to a full pool. */
  lemma {:induction false} EveryBufferInOnePlace(st: Settings, schedule: seq<Turn>, buf: nat)
    requires st.ringSize >= 2
    ensures var s := Pipeline.Run(st, schedule);
            && multiset(FreeStack(s.pool))[buf] + multiset(Contents(s.ring))[buf]
               + multiset(SubscriberHand(s))[buf] + multiset(WorkerHand(s))[buf] == (if buf < st.poolSize then 1 else 0)
            && s.overflows == 0
  {
    hide Shaped, FreeStack, SubscriberHand, WorkerHand, Contents, AllBuffers, NeverRefused;
    RunOwned(st, schedule);
    AllBuffersOnce(st.poolSize, buf);
  }

  /** With fewer buffers than slots, enqueue never fails. */
  lemma {:induction false} QueueNeverFull(st: Settings, schedule: seq<Turn>)
    requires 2 <= st.ringSize && st.poolSize < st.ringSize
    ensures var s := Pipeline.Run(st, schedule);
            s.queueFull == 0 && s.ring.failures == 0 && |Contents(s.ring)| <= st.poolSize
  {
    hide Shaped, SubscriberHand, WorkerHand, Contents;
    RunOwned(st, schedule);
    PartitionSize(st, Pipeline.Run(st, schedule));
  }

  // ----- delivery -----

  /** The messages whose fragments these are, as received. */
  function Messages(fragments: seq<Fragment>): (messages: seq<Content>)
    ensures |messages| == |fragments|
  {
    seq(|fragments|, i requires 0 <= i < |fragments| => Received(fragments[i]))
  }

  /**
   Refinement, for every pool and ring size: processMessage has been given exactly the sequential seen
   set filter of the messages published and decided so far, less the one in hand. All of them are
   fragments as received, byte for byte, in order.
   */
  lemma {:induction false} ProcessedIsFilterOfSent(st: Settings, schedule: seq<Turn>)
    requires st.ringSize >= 2
    ensures var s := Pipeline.Run(st, schedule);
            && s.sent == Messages(s.origin)
            && 0 <= Handled(s) <= Decided(s) <= |s.sent|
            && s.processed == Through(s.sent[..Handled(s)], st.seenLimit)
            && s.processed + InProcessing(s) == Through(s.sent[..Decided(s)], st.seenLimit)
            && |s.ring.popped| <= |s.sent|
            && (WorkerHand(s) == [] ==> s.processed == Through(s.sent[..|s.ring.popped|], st.seenLimit))
  {
    hide Delivery.Invariant, Received, Through, Decided, InProcessing, WorkerHand;
    RunInvariant(st, schedule);
    SentAsReceived(st, Pipeline.Run(st, schedule));
    DecidedAreFiltered(st, Pipeline.Run(st, schedule));
    HandAndDecided(st, Pipeline.Run(st, schedule));
  }

  lemma SentAsReceived(st: Settings, s: State)
    requires Delivery.Invariant(st, s)
    ensures s.sent == Messages(s.origin)
  {
    hide Owned, Linked, Filtered, Reported, Received, Read, TrackerAfter, Passed;
  }

  lemma DecidedAreFiltered(st: Settings, s: State)
    requires Delivery.Invariant(st, s)
    ensures 0 <= Handled(s) <= Decided(s) <= |s.sent|
    ensures s.processed == Through(s.sent[..Handled(s)], st.seenLimit)
    ensures s.processed + InProcessing(s) == Through(s.sent[..Decided(s)], st.seenLimit)
  {
    hide Owned, Linked, Tracked, Reported, Read, Through, Decided, InProcessing, SeenFilter.After, Keys;
  }

  lemma HandAndDecided(st: Settings, s: State)
    requires Delivery.Invariant(st, s)
    ensures |s.ring.popped| <= |s.sent|
    ensures WorkerHand(s) == [] ==> Decided(s) == |s.ring.popped| && s.processed + InProcessing(s) == s.processed
  {
    hide Owned, Filtered, Tracked, Reported, Read;
    RingFacts(st, s);
  }

  /**
   Of the fragments that pass the duplicate window all are published that the queue did not refuse; only
   the last can still be on its way. Nothing else is published, and nothing out of order.
   */
  lemma {:induction false} SentIsSelection(st: Settings, schedule: seq<Turn>)
    requires st.ringSize >= 2
    ensures var s := Pipeline.Run(st, schedule);
            var passed := Passed(st, s.checked);
            && |s.fates| <= |passed|
            && s.origin == Select(passed[..|s.fates|], s.fates)
            && passed[|s.fates|..] == InFlight(s)
            && s.ring.failures == Refusals(s.fates)
            && s.tracker == TrackerAfter(st, s.checked)
  {
    hide Linked, Filtered, Owned, Received, Passed, TrackerAfter, Reported, Pipeline.Run, Select, Refusals, InFlight;
    RunInvariant(st, schedule);
  }

  lemma {:induction false} SelectAll(fragments: seq<Fragment>, fates: seq<bool>)
    requires |fragments| == |fates| && Refusals(fates) == 0
    ensures Select(fragments, fates) == fragments
    decreases |fates|
  {
    if fates != [] {
      SelectAll(fragments[..|fates| - 1], fates[..|fates| - 1]);
    }
  }

  /** With fewer buffers than slots, what is published is exactly what passes the duplicate window. */
  lemma {:induction false} SentIsFilterOfReceived(st: Settings, schedule: seq<Turn>)
    requires 2 <= st.ringSize && st.poolSize < st.ringSize
    ensures var s := Pipeline.Run(st, schedule);
            s.origin + InFlight(s) == Passed(st, s.checked)
  {
    hide Pipeline.Run, Passed, InFlight, Select, Refusals;
    var s := Pipeline.Run(st, schedule);
    SentIsSelection(st, schedule);
    QueueNeverFull(st, schedule);
    SelectAll(Passed(st, s.checked)[..|s.fates|], s.fates);
  }

  /**
   The two stages as one, for every pool and ring size: processMessage gets the seen-set filter of what
   the queue took of the window filter of the fragments that got a buffer.
   */
  lemma {:induction false} PipelineRefinement(st: Settings, schedule: seq<Turn>)
    requires st.ringSize >= 2
    ensures var s := Pipeline.Run(st, schedule);
            var passed := Passed(st, s.checked);
            && |s.fates| <= |passed|
            && var offered := Messages(Select(passed[..|s.fates|], s.fates));
               && 0 <= Decided(s) <= |offered|
               && s.processed + InProcessing(s) == Through(offered[..Decided(s)], st.seenLimit)
  {
    hide Pipeline.Run, Received, Through, Passed, Select, Decided, InProcessing;
    ProcessedIsFilterOfSent(st, schedule);
    SentIsSelection(st, schedule);
  }

  /** With fewer buffers than slots, two sequential filters over the fragments that got a buffer. */
  lemma {:induction false} RefinementWithRoom(st: Settings, schedule: seq<Turn>)
    requires 2 <= st.ringSize && st.poolSize < st.ringSize
    ensures var s := Pipeline.Run(st, schedule);
            var passed := Messages(Passed(st, s.checked));
            && 0 <= Decided(s) <= |passed|
            && s.processed + InProcessing(s) == Through(passed[..Decided(s)], st.seenLimit)
  {
    hide Pipeline.Run, Received, Through, Passed, Decided, InProcessing, InFlight;
    var s := Pipeline.Run(st, schedule);
    ProcessedIsFilterOfSent(st, schedule);
    SentIsFilterOfReceived(st, schedule);
    var passed := Messages(Passed(st, s.checked));
    assert passed[..|s.sent|] == s.sent;
    assert passed[..Decided(s)] == s.sent[..Decided(s)];
  }

  // ----- read after hand-off -----

  /**
   The buffer read for the checkpoint after it was handed over still holds the message sent in it,
   whatever the worker has done with it since.
   */
  lemma {:induction false} ReadAfterHandOff(st: Settings, schedule: seq<Turn>)
    requires st.ringSize >= 2
    ensures var s := Pipeline.Run(st, schedule);
            HandedOver(s)
            ==> var f, c := s.subscriber.fragment, Read(s, s.subscriber.buf);
                c == Received(f) && Carries(c, f.data, f.time)
  {
    hide Linked, Filtered, Owned, AsReceived, Carries, Read, Reported, TrackerAfter, Passed;
    RunInvariant(st, schedule);
    var s := Pipeline.Run(st, schedule);
    if HandedOver(s) {
      CarriesIff(Received(s.subscriber.fragment), s.subscriber.fragment.data, s.subscriber.fragment.time);
    }
  }

  /**
   Published message i is fragment i of those published, byte for byte but for the receive stamp. The
   worker's filter goes by bytes 8 to 15, the window and the checkpoint by the same bytes taken as int64.
   */
  lemma {:induction false} SentCarries(st: Settings, schedule: seq<Turn>, i: nat)
    requires st.ringSize >= 2 && i < |Pipeline.Run(st, schedule).sent|
    ensures var s := Pipeline.Run(st, schedule);
            && |s.sent| == |s.origin| && Carries(s.sent[i], s.origin[i].data, s.origin[i].time)
            && Key(s.sent[i]) == Eight(s.sent[i].header, 8) && MessageNumber(s.sent[i]) == Signed(s.sent[i].header, 8)
  {
    hide Linked, Filtered, Owned, AsReceived, Carries, Read, Reported, TrackerAfter, Passed, Parse, MessageNumber,
      Eight, Signed;
    RunInvariant(st, schedule);
    var s := Pipeline.Run(st, schedule);
    var c: Content := s.sent[i];
    CarriesIff(c, s.origin[i].data, s.origin[i].time);
    NumberBytes(c);
    HeaderOffsets(c.header);
  }

  /** So the checkpoint is told of every published message once, in order, under its own number and position. */
  lemma {:induction false} CheckpointTold(st: Settings, schedule: seq<Turn>)
    requires st.ringSize >= 2
    ensures var s := Pipeline.Run(st, schedule);
            && |s.updates| <= |s.origin|
            && (forall i | 0 <= i < |s.updates| ::
                  s.updates[i] == Update(MessageNumber(Received(s.origin[i])), s.origin[i].position, i + 1))
            && (s.subscriber.Polling? ==> |s.updates| == |s.origin|)
  {
    hide Linked, Filtered, Owned, Received, Read, TrackerAfter, Passed, MessageNumber;
    RunInvariant(st, schedule);
    RingFacts(st, Pipeline.Run(st, schedule));
  }

  // ----- the worker's view of the queue -----

  /** The depth the worker adds to its total is the number of queued messages when it loads the tail. */
  lemma {:induction false} SampledDepthExact(st: Settings, schedule: seq<Turn>, glitch: bool)
    requires st.ringSize >= 2 && Pipeline.Run(st, schedule).worker.Sizing?
    ensures var s := Pipeline.Run(st, schedule);
            WorkerStep(st, s, glitch).depthTotal == s.depthTotal + |Contents(s.ring)|
  {
    hide Pipeline.Run, WorkerStep, Shaped, SpscRing.Inv, Partitioned, RoomToReturn, NeverRefused, Contents;
    RunOwned(st, schedule);
    var s := Pipeline.Run(st, schedule);
    SamplingFacts(st, s);
    DepthIsExact(s.ring);
    SampleAdds(st, s, glitch);
  }

  lemma SamplingFacts(st: Settings, s: State)
    requires Shaped(st, s) && s.worker.Sizing?
    ensures SpscRing.Inv(s.ring) && s.worker.head == s.ring.head
  {
    hide SpscRing.Inv, Counted, BusyWith;
  }

  lemma SampleAdds(st: Settings, s: State, glitch: bool)
    requires WellTyped(s) && s.worker.Sizing? && s.worker.head == s.ring.head
    ensures WorkerStep(st, s, glitch).depthTotal == s.depthTotal + (s.ring.tail - s.ring.head) % Size(s.ring)
  {
    hide Tracking.Sound, ConsumerStep, FreeTurn, SeenFilter.Check, Key;
  }

  ghost predicate NoEarlyEmpty(s: State, s': State) {
    && |s.ring.pushed| <= |s'.ring.pushed|
    && s.emptyPolls <= s'.emptyPolls
    && (s.emptyPolls < s'.emptyPolls ==> |s'.ring.popped| >= |s.ring.pushed|)
  }

  lemma StepNoEarlyEmpty(st: Settings, s: State, t: State, turn: Turn)
    requires Owned(st, t) && NoEarlyEmpty(s, t)
    ensures NoEarlyEmpty(s, Pipeline.Step(st, t, turn))
  {
    hide Owned, SpscRing.Inv, Counted, ProducerStep, ConsumerStep, InBounds, AllocTurn, FreeTurn, BusyWith,
      Tracking.OnArrival, Tracking.Sound, Read, Write, Received, MessageNumber, SeenFilter.Check, Key;
    RingFacts(st, t);
    if turn.Subscribe? && t.subscriber.Enqueuing? {
      ProducerEffect(t.ring, t.subscriber.buf);
    } else if turn.Work? && t.worker.Dequeuing? {
      ConsumerEffect(t.ring);
      EnoughPopped(t);
    }
  }

  lemma EnoughPopped(t: State)
    requires SpscRing.Inv(t.ring)
    ensures |Contents(t.ring)| == |t.ring.pushed| - |t.ring.popped|
  {
    hide LiveSlots, ProducerInv, ConsumerInv;
  }

  /** A worker cannot find the queue empty before it has taken as many messages as were queued earlier. */
  lemma {:induction false} EmptyPollOnlyAfterDrain(st: Settings, schedule: seq<Turn>, more: seq<Turn>)
    requires st.ringSize >= 2
    ensures var s := Pipeline.Run(st, schedule);
            var s' := Pipeline.Run(st, schedule + more);
            NoEarlyEmpty(s, s')
            && (s'.emptyPolls > s.emptyPolls ==> |s'.ring.popped| - |s.ring.popped| >= |Contents(s.ring)|)
    decreases |more|
  {
    hide Pipeline.Step, Owned, Contents;
    var s := Pipeline.Run(st, schedule);
    RunOwned(st, schedule);
    RingFacts(st, s);
    EnoughPopped(s);
    DrainedSoFar(st, schedule, more);
  }

  lemma {:induction false} DrainedSoFar(st: Settings, schedule: seq<Turn>, more: seq<Turn>)
    requires st.ringSize >= 2
    ensures NoEarlyEmpty(Pipeline.Run(st, schedule), Pipeline.Run(st, schedule + more))
    decreases |more|
  {
    hide Pipeline.Step, Owned;
    if more == [] {
      assert schedule + more == schedule;
    } else {
      var init := more[..|more| - 1];
      var whole := schedule + more;
      assert whole[..|whole| - 1] == schedule + init;
      DrainedSoFar(st, schedule, init);
      RunOwned(st, schedule + init);
      hide NoEarlyEmpty;
      StepNoEarlyEmpty(st, Pipeline.Run(st, schedule), Pipeline.Run(st, schedule + init), more[|more| - 1]);
    }
  }
}

/**
 MessageWorker.cpp: the object whose loop runs in the worker's thread. Whatever it is fed, what it has
 processed is the seen-set filter of what it has taken from the queue.
 */
module Workers {
  import opened Bytes
  import opened Wrappers
  import opened MessageFrame
  import opened BufferPools
  import opened MessageQueues
  import opened SPSCQueues
  import opened Delivery
  import Pipeline
  import SeenFilter

  const SEEN_LIMIT: nat := 1000000

  /** What the monitor is told of a message. */
  function StatsOf(c: Content): MessageStats {
    var f := Parse(c.header);
    MessageStats(ToSigned(f.sequenceNumber), ToSigned(f.publishTime), ToSigned(f.recvTime), 0)
  }

  /** The header's number, publish time and receive time, and no position. */
  lemma StatsBytes(c: Content)
    ensures StatsOf(c) == MessageStats(Signed(c.header, 8), Signed(c.header, 24), Signed(c.header, 32), 0)
  {
    hide Parse, Eight;
    HeaderOffsets(c.header);
  }

  class MessageWorker {
    const pool: BufferPool
    const queue: MessageQueue<MessageBuffer>
    const statsQueue: SPSCQueue<MessageStats>
    var seenSequences: set<nat>
    var messagesProcessed: nat
    var messagesDuplicate: nat
    var queueEmptyCount: nat
    var totalQueueDepth: nat
    var queueDepthSamples: nat
    ghost var taken: seq<Content>
    ghost var processed: seq<Content>

    /** The filter's state is determined by the messages taken so far. */
    ghost function Filters(): (f: bool)
      reads this`seenSequences, this`messagesDuplicate, this`taken, this`processed
    {
      && seenSequences == SeenFilter.After({}, Keys(taken), SEEN_LIMIT)
      && processed == Through(taken, SEEN_LIMIT)
      && messagesDuplicate == |taken| - |processed|
    }

    /** The shared structures: every queued buffer is the pool's, and there is room to give them all back. */
    ghost function Wired(): (wired: bool)
      reads pool, pool.freeList, pool.buffers`actualPayloadLength, queue, queue.buffer, statsQueue, statsQueue.buffer
      ensures wired ==> pool.freeCount + |queue.Queued()| <= |pool.buffers| == pool.freeList.Length
      ensures wired ==> forall b | b in queue.Queued() :: b in pool.buffers && b.Valid()
    {
      && pool.Valid() && queue.Valid() && statsQueue.Valid()
      && (forall b | b in queue.Queued() :: b in pool.buffers)
      && pool.freeCount + |queue.Queued()| <= |pool.buffers|
    }

    ghost function Valid(): (valid: bool)
      reads this`seenSequences, this`messagesProcessed, this`messagesDuplicate, this`taken, this`processed
      reads pool, pool.freeList, pool.buffers`actualPayloadLength
      reads queue, queue.buffer, statsQueue, statsQueue.buffer
      ensures valid ==> Wired()
    {
      Filters() && messagesProcessed == |processed| && Wired()
    }

    constructor (pool: BufferPool, queue: MessageQueue<MessageBuffer>, statsQueue: SPSCQueue<MessageStats>)
      requires pool.Valid() && queue.Valid() && statsQueue.Valid() && queue.Queued() == []
      ensures Valid() && taken == [] && processed == []
      ensures this.pool == pool && this.queue == queue && this.statsQueue == statsQueue
    {
      this.pool, this.queue, this.statsQueue := pool, queue, statsQueue;
      seenSequences := {};
      messagesProcessed, messagesDuplicate, queueEmptyCount, totalQueueDepth, queueDepthSamples := 0, 0, 0, 0, 0;
      taken, processed := [], [];
    }

    /** Accepts every message; the stricter checks are commented out in the source. */
    method ValidateMessage(buf: MessageBuffer?) returns (ok: bool)
      ensures ok == Pipeline.ValidateMessage(if buf == null then None else Some(0))
    {
      ok := buf != null;
    }

    /** The set keeps growing by one until it outgrows the limit, and is then cleared whole. */
    method CheckDuplicate(buf: MessageBuffer) returns (duplicate: bool)
      requires buf.Valid()
      modifies this`seenSequences
      ensures (seenSequences, duplicate) == SeenFilter.Check(old(seenSequences), Pipeline.Key(buf.Contents()), SEEN_LIMIT)
      ensures duplicate <==> Eight(buf.header, 8) in old(seenSequences)
      ensures seenSequences == if duplicate then old(seenSequences)
                               else if |old(seenSequences)| >= 1000000 then {}
                               else old(seenSequences) + {Eight(buf.header, 8)}
    {
      hide Parse, Eight;
      HeaderOffsets(buf.header);
      var number := Parse(buf.header).sequenceNumber;
      if number in seenSequences {
        return true;
      }
      seenSequences := seenSequences + {number};
      if |seenSequences| > SEEN_LIMIT {
        seenSequences := {};
      }
      return false;
    }

    /** A full statistics queue drops the entry. */
    method SendToMonitoring(buf: MessageBuffer)
      requires buf.Valid() && Wired()
      modifies statsQueue, statsQueue.buffer
      ensures Wired()
      ensures statsQueue.Queued()
              == old(statsQueue.Queued()) + if |old(statsQueue.Queued())| < statsQueue.buffer.Length - 1 then [StatsOf(buf.Contents())] else []
    {
      hide SPSCQueue.Valid, SPSCQueue.Queued, SPSCQueue.View, BufferPool.Valid, MessageQueue.Valid, MessageQueue.Queued;
      var f := Parse(buf.header);
      var stats := MessageStats(ToSigned(f.sequenceNumber), ToSigned(f.publishTime), ToSigned(f.recvTime), 0);
      var _ := statsQueue.Enqueue(stats);
    }

    /** Steps 4 and 5: the filter's verdict on one message, and the bookkeeping that goes with it. */
    method Filter(buf: MessageBuffer) returns (duplicate: bool)
      requires Filters() && buf.Valid()
      modifies this`seenSequences, this`messagesDuplicate, this`taken, this`processed
      ensures Filters() && taken == old(taken) + [buf.Contents()]
      ensures processed == old(processed) + if duplicate then [] else [buf.Contents()]
      ensures messagesDuplicate == old(messagesDuplicate) + if duplicate then 1 else 0
      ensures duplicate <==> Eight(buf.header, 8) in old(seenSequences)
    {
      hide Through, Keys, SeenFilter.After, SeenFilter.Check, Pipeline.Key, Eight;
      ghost var message := buf.Contents();
      ghost var longer := taken + [message];
      assert longer[..|taken|] == taken && longer[..|taken| + 1] == longer;
      ThroughNext(longer, |taken|, SEEN_LIMIT);
      duplicate := CheckDuplicate(buf);
      taken := longer;
      if duplicate {
        messagesDuplicate := messagesDuplicate + 1;
        assert processed + [] == processed;
      } else {
        processed := processed + [message];
      }
    }

    /** Step 2: the oldest queued buffer. */
    method TakeBuffer() returns (buf: Option<MessageBuffer>)
      requires Wired()
      modifies queue, queue.buffer
      ensures Wired()
      ensures buf.None? ==> old(queue.Queued()) == [] == queue.Queued()
      ensures buf.Some? ==> old(queue.Queued()) == [buf.value] + queue.Queued() && buf.value in pool.buffers && buf.value.Valid()
      ensures buf.Some? ==> pool.freeCount + |queue.Queued()| < |pool.buffers|
    {
      hide MessageQueue.Queued, MessageQueue.Valid, MessageQueue.View, SPSCQueue.Valid, BufferPool.Valid;
      ghost var before := queue.Queued();
      buf := queue.Dequeue();
      assert buf.Some? ==> before[0] == buf.value && buf.value in before;
      assert forall b | b in queue.Queued() :: b in before;
    }

    /** Step 7. */
    method GiveBack(buf: MessageBuffer, glitches: nat)
      requires Wired() && buf in pool.buffers && pool.freeCount + |queue.Queued()| < |pool.buffers|
      modifies pool, pool.freeList, buf`inUse
      ensures Wired() && pool.Free() == old(pool.Free()) + [buf] && !buf.inUse
    {
      hide MessageQueue.Queued, MessageQueue.Valid, SPSCQueue.Valid, BufferPool.Valid, BufferPool.View, FreeTurn;
      pool.Deallocate(buf, glitches);
    }

    /** What the buffers hold. */
    ghost function Messages(bufs: seq<MessageBuffer>): (messages: seq<Content>)
      requires forall b | b in bufs :: b.Valid()
      reads bufs`header, bufs`actualPayloadLength, set b | b in bufs :: b.payload
      ensures |messages| == |bufs|
    {
      if bufs == [] then [] else [bufs[0].Contents()] + Messages(bufs[1..])
    }

    /** The monitor's queue after a message: one entry more if the message is new and there is room. */
    ghost function Monitored(before: seq<MessageStats>, c: Content, duplicate: bool): seq<MessageStats>
      reads statsQueue
    {
      if duplicate || |before| >= statsQueue.buffer.Length - 1 then before
      else before + [MessageStats(Signed(c.header, 8), Signed(c.header, 24), Signed(c.header, 32), 0)]
    }

    /** Steps 3 to 8 for a buffer just taken from the queue. */
    method Handle(buf: MessageBuffer, now: int, glitches: nat)
      requires Valid() && buf in pool.buffers && buf.Valid() && pool.freeCount + |queue.Queued()| < |pool.buffers|
      modifies this`seenSequences, this`messagesProcessed, this`messagesDuplicate, this`taken, this`processed
      modifies pool, pool.freeList, buf`inUse, buf`workerDequeueTimeNs, statsQueue, statsQueue.buffer
      ensures Valid() && buf.workerDequeueTimeNs == now && !buf.inUse
      ensures taken == old(taken) + [old(buf.Contents())]
      ensures pool.Free() == old(pool.Free()) + [buf]
      ensures queue.Queued() == old(queue.Queued())
      ensures var duplicate := Eight(buf.header, 8) in old(seenSequences);
              && processed == old(processed) + (if duplicate then [] else [old(buf.Contents())])
              && messagesProcessed == old(messagesProcessed) + (if duplicate then 0 else 1)
              && messagesDuplicate == old(messagesDuplicate) + (if duplicate then 1 else 0)
              && statsQueue.Queued() == Monitored(old(statsQueue.Queued()), old(buf.Contents()), duplicate)
    {
      hide Wired, Filters, MessageQueue.Queued, SPSCQueue.Queued, StatsOf, Signed, Eight;
      buf.workerDequeueTimeNs := now;
      var ok := ValidateMessage(buf);
      assert ok;
      var duplicate := Filter(buf);
      if !duplicate {
        StatsBytes(buf.Contents());
        SendToMonitoring(buf);
      }
      GiveBack(buf, glitches);
      if !duplicate {
        messagesProcessed := messagesProcessed + 1;
      }
    }

    twostate lemma MessagesKept(bufs: seq<MessageBuffer>)
      requires forall b | b in bufs :: old(b.Valid()) && b.Valid() && b.Contents() == old(b.Contents())
      ensures Messages(bufs) == old(Messages(bufs))
    {
      hide MessageBuffer.Valid, MessageBuffer.Contents;
      if bufs != [] {
        MessagesKept(bufs[1..]);
      }
    }

    lemma MessagesFirst(buf: MessageBuffer, rest: seq<MessageBuffer>)
      requires buf.Valid() && forall b | b in rest :: b.Valid()
      ensures Messages([buf] + rest) == [buf.Contents()] + Messages(rest)
    {
      assert ([buf] + rest)[1..] == rest;
    }

    /** One turn of the loop: samples the depth, and handles the oldest queued message if there is one. */
    method TakeTurn(now: int, glitches: nat)
      requires Valid()
      modifies this, pool, pool.freeList, pool.buffers`inUse, pool.buffers`workerDequeueTimeNs
      modifies queue, queue.buffer, statsQueue, statsQueue.buffer
      ensures Valid()
      ensures totalQueueDepth == old(totalQueueDepth) + |old(queue.Queued())|
      ensures queueDepthSamples == old(queueDepthSamples) + 1
      ensures taken + Messages(queue.Queued()) == old(taken + Messages(queue.Queued()))
      ensures pool.Free() + queue.Queued() == old(pool.Free() + queue.Queued())
      ensures var idle := old(queue.Queued()) == [];
              && |queue.Queued()| == |old(queue.Queued())| - (if idle then 0 else 1)
              && queueEmptyCount == old(queueEmptyCount) + (if idle then 1 else 0)
    {
      hide Filters, Wired, Messages, MessageQueue.Queued, MessageBuffer.Contents, MessageBuffer.Valid;
      var depth := SampleDepth();
      totalQueueDepth := totalQueueDepth + depth;
      queueDepthSamples := queueDepthSamples + 1;
      ghost var queued := queue.Queued();
      ghost var messages := Messages(queued);
      var buf := TakeBuffer();
      if buf.None? {
        queueEmptyCount := queueEmptyCount + 1;
        return;
      }
      ghost var rest := queue.Queued();
      assert queued == [buf.value] + rest;
      MessagesKept(queued);
      MessagesFirst(buf.value, rest);
      Regroup(taken, buf.value.Contents(), Messages(rest));
      Regroup(pool.Free(), buf.value, rest);
      label Handled:
      Handle(buf.value, now, glitches);
      MessagesKept@Handled(rest);
    }

    /** Step 1. */
    method SampleDepth() returns (depth: nat)
      requires Wired()
      ensures depth == |queue.Queued()|
    {
      depth := queue.Size();
    }

    /**
     The loop, run alone for as many turns as it is given: messages go from the queue's front to the end
     of what was taken, none lost, added or changed on the way, and their buffers go to the pool.
     */
    method WorkerThreadMain(turns: seq<Turn>)
      requires Valid()
      modifies this, pool, pool.freeList, pool.buffers`inUse, pool.buffers`workerDequeueTimeNs
      modifies queue, queue.buffer, statsQueue, statsQueue.buffer
      ensures Valid()
      ensures taken + Messages(queue.Queued()) == old(taken + Messages(queue.Queued()))
      ensures pool.Free() + queue.Queued() == old(pool.Free() + queue.Queued())
      ensures |queue.Queued()| == if |turns| < |old(queue.Queued())| then |old(queue.Queued())| - |turns| else 0
      ensures queueEmptyCount - old(queueEmptyCount) == |turns| - (|old(queue.Queued())| - |queue.Queued()|)
    {
      hide Valid, Wired, MessageQueue.Queued, Messages, MessageBuffer.Contents, MessageBuffer.Valid;
      ghost var queued := |queue.Queued()|;
      var i := 0;
      while i < |turns|
        invariant 0 <= i <= |turns| && Valid()
        invariant taken + Messages(queue.Queued()) == old(taken + Messages(queue.Queued()))
        invariant pool.Free() + queue.Queued() == old(pool.Free() + queue.Queued())
        invariant |queue.Queued()| == if i < queued then queued - i else 0
        invariant queueEmptyCount - old(queueEmptyCount) == i - (queued - |queue.Queued()|)
      {
        TakeTurn(turns[i].now, turns[i].glitches);
        i := i + 1;
      }
    }
  }

  lemma Regroup<T>(front: seq<T>, x: T, rest: seq<T>)
    ensures front + [x] + rest == front + ([x] + rest)
  {
  }

  /** A turn's clock reading, and how often the pool's weak exchange fails in it. */
  datatype Turn = Turn(now: int, glitches: nat)
}

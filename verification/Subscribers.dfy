/**
 AeronSubscriber.cpp: the object whose fast path runs in the subscriber's thread. Its bookkeeping is
 proved to be that of module Tracking, its queue and pool operations those of the shared structures.
 */
module Subscribers {
  import opened Bytes
  import opened Wrappers
  import opened MessageFrame
  import opened BufferPools
  import opened MessageQueues
  import opened Checkpoints
  import SpscRing
  import Tracking

  class AeronSubscriber {
    const config: Tracking.Config
    const duplicateBuffer: array<int>
    const pool: BufferPool
    const queue: MessageQueue<MessageBuffer>
    const checkpoint: CheckpointManager?
    var expectedSequence: int
    var duplicateBufferPos: nat
    var gapsDetected: nat
    var gapsRecovered: int
    var duplicatesDetected: nat
    var messagesReceived: nat
    var allocationFailures: nat
    var queueFullFailures: nat

    /** The part of the state the gap and duplicate checks work on. */
    ghost function Tracker(): Tracking.Tracker
      reads this`expectedSequence, this`duplicateBufferPos, this`gapsDetected, this`gapsRecovered, this`duplicatesDetected
      reads duplicateBuffer
    {
      Tracking.Tracker(expectedSequence, duplicateBuffer[..], duplicateBufferPos, gapsDetected, gapsRecovered, duplicatesDetected)
    }

    ghost function Tracks(): (tracks: bool)
      reads this`expectedSequence, this`duplicateBufferPos, this`gapsDetected, this`gapsRecovered, this`duplicatesDetected
      reads duplicateBuffer
      ensures tracks ==> Tracking.Sound(Tracker())
    {
      && duplicateBuffer.Length == (if config.duplicateCheck then config.window else 0)
      && Tracking.Sound(Tracker())
    }

    constructor (config: Tracking.Config, pool: BufferPool, queue: MessageQueue<MessageBuffer>, checkpoint: CheckpointManager?)
      ensures this.config == config && this.pool == pool && this.queue == queue && this.checkpoint == checkpoint
      ensures Tracks() && Tracker() == Tracking.Start(config)
      ensures messagesReceived == 0 && allocationFailures == 0 && queueFullFailures == 0
      ensures fresh(duplicateBuffer)
    {
      this.config, this.pool, this.queue, this.checkpoint := config, pool, queue, checkpoint;
      duplicateBuffer := new int[if config.duplicateCheck then config.window else 0](_ => Tracking.UNUSED);
      expectedSequence, duplicateBufferPos := 0, 0;
      gapsDetected, gapsRecovered, duplicatesDetected := 0, 0, 0;
      messagesReceived, allocationFailures, queueFullFailures := 0, 0, 0;
      new;
      assert duplicateBuffer[..] == Tracking.Start(config).ring;
    }

    method CheckForGaps(number: int) returns (gap: bool)
      requires Tracks()
      modifies this`expectedSequence
      ensures Tracks()
      ensures (Tracker(), gap) == Tracking.CheckForGaps(config, old(Tracker()), number)
    {
      if expectedSequence == 0 {
        expectedSequence := number + 1;
        return false;
      }
      if number < expectedSequence {
        return false;
      }
      if number > expectedSequence {
        var gapSize := number - expectedSequence;
        if gapSize <= config.tolerance {
          return true;
        } else {
          return false;
        }
      }
      return false;
    }

    /** Only counts: a recording that is found is taken to bring the missing messages back. */
    method TriggerImmediateGapRecovery(gapStart: int, gapEnd: int, recordingId: int) returns (ok: bool)
      modifies this`gapsRecovered
      ensures ok == (recordingId > 0)
      ensures gapsRecovered == old(gapsRecovered) + if ok then gapEnd - gapStart + 1 else 0
    {
      if recordingId <= 0 {
        return false;
      }
      gapsRecovered := gapsRecovered + (gapEnd - gapStart + 1);
      return true;
    }

    /** The linear search of the ring. */
    method IsDuplicate(number: int) returns (found: bool)
      ensures found == (config.duplicateCheck && number in duplicateBuffer[..])
    {
      if !config.duplicateCheck || duplicateBuffer.Length == 0 {
        return false;
      }
      var i := 0;
      while i < duplicateBuffer.Length
        invariant 0 <= i <= duplicateBuffer.Length
        invariant number !in duplicateBuffer[..i]
      {
        if duplicateBuffer[i] == number {
          return true;
        }
        i := i + 1;
      }
      assert duplicateBuffer[..] == duplicateBuffer[..duplicateBuffer.Length];
      return false;
    }

    method AddToDuplicationBuffer(number: int)
      requires Tracks()
      modifies this`duplicateBufferPos, duplicateBuffer
      ensures Tracks()
      ensures Tracker() == if config.duplicateCheck then Tracking.Remember(old(Tracker()), number) else old(Tracker())
    {
      if !config.duplicateCheck || duplicateBuffer.Length == 0 {
        return;
      }
      ghost var before := duplicateBuffer[..];
      duplicateBuffer[duplicateBufferPos] := number;
      assert duplicateBuffer[..] == before[duplicateBufferPos := number];
      WrapIsModulo(duplicateBufferPos + 1, duplicateBuffer.Length);
      duplicateBufferPos := (duplicateBufferPos + 1) % duplicateBuffer.Length;
    }

    /** Steps 4 to 6 of the fast path. */
    method Track(number: int, recordingId: int) returns (pass: bool)
      requires Tracks()
      modifies this`expectedSequence, this`duplicateBufferPos, this`gapsDetected, this`gapsRecovered,
               this`duplicatesDetected, duplicateBuffer
      ensures Tracks()
      ensures (Tracker(), pass)
              == Tracking.OnArrival(config, old(Tracker()), Tracking.Arrival(number, recordingId > 0))
    {
      hide Tracking.Remember;
      if config.gapRecovery {
        var gap := CheckForGaps(number);
        if gap {
          gapsDetected := gapsDetected + 1;
          var _ := TriggerImmediateGapRecovery(expectedSequence, number - 1, recordingId);
        }
      }
      if config.duplicateCheck {
        var duplicate := IsDuplicate(number);
        if duplicate {
          duplicatesDetected := duplicatesDetected + 1;
          return false;
        }
      }
      expectedSequence := number + 1;
      if config.duplicateCheck {
        AddToDuplicationBuffer(number);
      }
      return true;
    }

    // ----- the fast path -----

    ghost predicate Valid()
      reads this`expectedSequence, this`duplicateBufferPos, this`gapsDetected, this`gapsRecovered, this`duplicatesDetected
      reads duplicateBuffer, pool, pool.freeList, pool.buffers`actualPayloadLength
      reads queue, queue.buffer
    {
      Tracks() && pool.Valid() && queue.Valid()
    }

    ghost predicate Room()
      reads queue, queue.buffer
    {
      |queue.Queued()| < queue.buffer.Length - 1
    }

    /** Steps 2 and 3: a buffer of the pool, filled and stamped. */
    method Receive(data: seq<byte>, now: nat, glitches: nat) returns (buf: MessageBuffer?)
      requires pool.Valid()
      modifies pool, pool.buffers, set b | b in pool.buffers :: b.payload
      ensures pool.Valid()
      ensures buf == null <==> old(pool.Free()) == []
      ensures buf == null ==> pool.Free() == [] && forall b | b in pool.buffers :: unchanged(b) && unchanged(b.payload)
      ensures buf != null ==> buf in pool.buffers && old(pool.Free()) == pool.Free() + [buf]
      ensures buf != null ==> buf.Contents() == AsReceived(data, now) && Carries(buf.Contents(), data, now)
      ensures forall b | b in pool.buffers && b != buf :: unchanged(b) && unchanged(b.payload)
    {
      hide FromAeron, Stamped, Carries, BufferPool.View, AllocTurn;
      buf := pool.Allocate(glitches);
      if buf != null {
        buf.CopyFromAeron(data);
        buf.StampReceiveTime(now);
        CarriesIff(buf.Contents(), data, now);
      }
    }

    /** Steps 7 to 9: the buffer goes to the queue and the checkpoint hears of it, or it goes back to the pool. */
    method Forward(buf: MessageBuffer, position: int64, later: int64, glitches: nat)
      requires Valid() && buf in pool.buffers && pool.freeCount < |pool.buffers|
      modifies this`messagesReceived, this`queueFullFailures, pool, pool.freeList, buf`inUse
      modifies queue, queue.buffer, if checkpoint == null then {} else {checkpoint}
      ensures Valid()
      ensures old(Room()) ==> pool.Free() == old(pool.Free()) && queue.Queued() == old(queue.Queued()) + [buf]
      ensures !old(Room()) ==> pool.Free() == old(pool.Free()) + [buf] && queue.Queued() == old(queue.Queued())
      ensures messagesReceived == old(messagesReceived) + if old(Room()) then 1 else 0
      ensures queueFullFailures == old(queueFullFailures) + if old(Room()) then 0 else 1
      ensures checkpoint != null && old(Room())
              ==> checkpoint.Memory() == Record(NumberIn(buf.header), position, AsInt64(messagesReceived), later)
    {
      hide NumberIn, Tracking.Sound, MessageQueue.Valid, MessageQueue.View, MessageQueue.Queued, BufferPool.Valid,
        BufferPool.View, AllocTurn, FreeTurn, Wrap, BitAnd;
      var ok := queue.Enqueue(Some(buf));
      if !ok {
        Return(buf, glitches);
        queueFullFailures := queueFullFailures + 1;
        return;
      }
      messagesReceived := messagesReceived + 1;
      Report(buf, position, later);
    }

    method Return(buf: MessageBuffer, glitches: nat)
      requires Valid() && buf in pool.buffers && pool.freeCount < |pool.buffers|
      modifies pool, pool.freeList, buf`inUse
      ensures Valid() && pool.Free() == old(pool.Free()) + [buf]
    {
      hide Tracking.Sound, MessageQueue.Valid, BufferPool.Valid, BufferPool.View, FreeTurn, Tracks;
      pool.Deallocate(buf, glitches);
    }

    method Report(buf: MessageBuffer, position: int64, later: int64)
      modifies if checkpoint == null then {} else {checkpoint}
      ensures checkpoint != null ==> checkpoint.Memory() == Record(NumberIn(buf.header), position, AsInt64(messagesReceived), later)
    {
      hide NumberIn;
      if checkpoint != null {
        checkpoint.Update(NumberIn(buf.header), position, AsInt64(messagesReceived), later);
      }
    }

    /** Steps 4 to 9. */
    method Dispatch(buf: MessageBuffer, position: int64, recordingId: int, later: int64, glitches: nat)
      requires Valid() && buf in pool.buffers && pool.freeCount < |pool.buffers|
      modifies this`messagesReceived, this`queueFullFailures, this`expectedSequence, this`duplicateBufferPos,
               this`gapsDetected, this`gapsRecovered, this`duplicatesDetected, duplicateBuffer
      modifies pool, pool.freeList, buf`inUse, queue, queue.buffer, if checkpoint == null then {} else {checkpoint}
      ensures Valid()
      ensures var (tracker, pass) := Tracking.OnArrival(config, old(Tracker()), Tracking.Arrival(NumberIn(buf.header), recordingId > 0));
              var sent := pass && old(Room());
              && Tracker() == tracker
              && queueFullFailures == old(queueFullFailures) + (if pass && !old(Room()) then 1 else 0)
              && messagesReceived == old(messagesReceived) + (if sent then 1 else 0)
              && pool.Free() == old(pool.Free()) + (if sent then [] else [buf])
              && queue.Queued() == old(queue.Queued()) + (if sent then [buf] else [])
              && (checkpoint != null && sent
                  ==> checkpoint.Memory() == Record(NumberIn(buf.header), position, AsInt64(messagesReceived), later))
    {
      hide Tracking.OnArrival, NumberIn, Tracking.Sound, MessageQueue.Valid, MessageQueue.View, MessageQueue.Queued,
        BufferPool.Valid,
        BufferPool.View, Tracks, Tracker;
      var pass := Track(NumberIn(buf.header), recordingId);
      if !pass {
        Return(buf, glitches);
        return;
      }
      Forward(buf, position, later, glitches);
    }

    /**
     One fragment: dropped for want of a buffer with nothing else changed; or tracked, and then handed
     to the queue as received and reported to the checkpoint, or its buffer given back.
     */
    method HandleMessageFastPath(data: seq<byte>, position: int64, now: nat, recordingId: int, later: int64, glitches: nat)
      requires Valid() && now < TWO_TO_64
      modifies this, duplicateBuffer, pool, pool.freeList, pool.buffers, set b | b in pool.buffers :: b.payload
      modifies queue, queue.buffer, if checkpoint == null then {} else {checkpoint}
      ensures Valid()
      ensures var message := AsReceived(data, now);
              var (tracker, pass) := Tracking.OnArrival(config, old(Tracker()), Tracking.Arrival(MessageNumber(message), recordingId > 0));
              var free := old(pool.Free());
              var sent := free != [] && pass && old(Room());
              && Tracker() == (if free == [] then old(Tracker()) else tracker)
              && allocationFailures == old(allocationFailures) + (if free == [] then 1 else 0)
              && queueFullFailures == old(queueFullFailures) + (if free != [] && pass && !old(Room()) then 1 else 0)
              && messagesReceived == old(messagesReceived) + (if sent then 1 else 0)
              && (!sent ==> pool.Free() == free && queue.Queued() == old(queue.Queued()))
              && (sent ==> var buf := free[|free| - 1];
                           pool.Free() == free[..|free| - 1] && queue.Queued() == old(queue.Queued()) + [buf]
                           && buf.Contents() == message && Carries(buf.Contents(), data, now))
              && (checkpoint != null && sent
                  ==> checkpoint.Memory() == Record(MessageNumber(message), position, AsInt64(messagesReceived), later))
      ensures old(pool.Free()) == [] ==> forall b | b in pool.buffers :: unchanged(b) && unchanged(b.payload)
      ensures old(pool.Free()) != []
              ==> forall b | b in pool.buffers && b != old(pool.Free())[|old(pool.Free())| - 1] :: unchanged(b) && unchanged(b.payload)
    {
      hide Tracking.OnArrival, NumberIn, AsReceived, Carries, Tracking.Sound, MessageQueue.Valid, MessageQueue.View,
        MessageQueue.Queued, BufferPool.Valid, BufferPool.View, AllocTurn, FreeTurn,
        Tracks, Tracker, SpscRing.Run, SpscRing.Solo, SpscRing.Contents, SpscRing.Inv;
      var buf := Receive(data, now, glitches);
      if buf == null {
        allocationFailures := allocationFailures + 1;
        return;
      }
      Dispatch(buf, position, recordingId, later, glitches);
    }
  }
}

/**
 BufferPool.h: a fixed set of buffers and the stack of those that are free.
 */
module BufferPools {
  import opened Wrappers
  import opened MessageFrame

  /** The stack as an array and a count; entries at or above the count are left over. */
  datatype Pool<T> = Pool(list: seq<T>, count: nat, allocations: nat, deallocations: nat, failures: nat)

  function Fresh<T>(buffers: seq<T>): Pool<T> {
    Pool(buffers, |buffers|, 0, 0, 0)
  }

  predicate WithinPool<T>(p: Pool<T>) {
    p.count <= |p.list|
  }

  function FreeStack<T>(p: Pool<T>): seq<T>
    requires WithinPool(p)
  {
    p.list[..p.count]
  }

  datatype AllocOutcome<+T> = Exhausted | Got(buf: T) | AllocRetry(count: nat)
  datatype FreeOutcome = Overflow | Freed | FreeRetry(count: nat)

  /**
   One turn of allocate's loop, the compare-exchange and its slot access taken together. The weak
   exchange may fail without cause; a failure reloads the count.
   */
  function AllocTurn<T>(p: Pool<T>, expected: nat, spurious: bool): (Pool<T>, AllocOutcome<T>)
    requires WithinPool(p)
  {
    if expected == 0 then (p.(failures := p.failures + 1), Exhausted)
    else if p.count != expected || spurious then (p, AllocRetry(p.count))
    else (p.(count := p.count - 1, allocations := p.allocations + 1), Got(p.list[p.count - 1]))
  }

  /** One turn of deallocate's loop. */
  function FreeTurn<T>(p: Pool<T>, expected: nat, buf: T, spurious: bool): (Pool<T>, FreeOutcome)
    requires WithinPool(p)
  {
    if expected >= |p.list| then (p, Overflow)
    else if p.count != expected || spurious then (p, FreeRetry(p.count))
    else (p.(list := p.list[p.count := buf], count := p.count + 1, deallocations := p.deallocations + 1), Freed)
  }

  lemma AllocPops<T>(p: Pool<T>, expected: nat, spurious: bool)
    requires WithinPool(p) && AllocTurn(p, expected, spurious).1.Got?
    ensures var (p', outcome) := AllocTurn(p, expected, spurious);
            WithinPool(p') && FreeStack(p) == FreeStack(p') + [outcome.buf]
  {
  }

  lemma FreePushes<T>(p: Pool<T>, expected: nat, buf: T, spurious: bool)
    requires WithinPool(p) && FreeTurn(p, expected, buf, spurious).1.Freed?
    ensures var p' := FreeTurn(p, expected, buf, spurious).0;
            WithinPool(p') && FreeStack(p') == FreeStack(p) + [buf]
  {
  }

  // ----- compare-exchange and slot access as two steps -----

  /** One allocate and one deallocate of buffer b under way at once, slot accesses not yet made. */
  datatype Split<T> = Split(list: seq<T>, count: nat, readAt: Option<nat>, writeAt: Option<nat>, got: Option<T>)

  datatype PoolStep = AllocCas | AllocRead | FreeCas | FreeWrite

  function SplitStep<T>(s: Split<T>, b: T, step: PoolStep): Split<T> {
    match step
    case AllocCas => if s.count > 0 then s.(count := s.count - 1, readAt := Some(s.count - 1)) else s
    case AllocRead =>
      if s.readAt.Some? && s.readAt.value < |s.list| then s.(got := Some(s.list[s.readAt.value])) else s
    case FreeCas => if s.count < |s.list| then s.(count := s.count + 1, writeAt := Some(s.count)) else s
    case FreeWrite =>
      if s.writeAt.Some? && s.writeAt.value < |s.list| then s.(list := s.list[s.writeAt.value := b]) else s
  }

  function SplitRun<T>(s: Split<T>, b: T, steps: seq<PoolStep>): Split<T>
    decreases |steps|
  {
    if steps == [] then s else SplitRun(SplitStep(s, b, steps[0]), b, steps[1..])
  }

  /** The six ways the two operations can interleave, by the order of their halves. */
  function Interleaving(allocFirst: bool, how: nat): seq<PoolStep> {
    if allocFirst then
      if how == 0 then [AllocCas, AllocRead, FreeCas, FreeWrite]
      else if how == 1 then [AllocCas, FreeCas, AllocRead, FreeWrite]
      else [AllocCas, FreeCas, FreeWrite, AllocRead]
    else
      if how == 0 then [FreeCas, FreeWrite, AllocCas, AllocRead]
      else if how == 1 then [FreeCas, AllocCas, FreeWrite, AllocRead]
      else [FreeCas, AllocCas, AllocRead, FreeWrite]
  }

  /** Each buffer is either handed out or free, never both: what two indivisible operations leave behind. */
  ghost predicate SameAsIndivisible<T>(start: Split<T>, b: T, end: Split<T>, allocFirst: bool)
    requires start.count < |start.list| && |end.list| == |start.list| && end.count == start.count
    requires allocFirst ==> start.count > 0
  {
    var free := start.list[..start.count];
    if allocFirst
    then end.got == Some(free[|free| - 1]) && end.list[..end.count] == free[..|free| - 1] + [b]
    else end.got == Some(b) && end.list[..end.count] == free
  }

  /** Where each order of the two operations leaves the list, and what the allocate got. */
  lemma SplitOutcome<T>(list: seq<T>, count: nat, b: T, allocFirst: bool, how: nat)
    requires count < |list| && (allocFirst ==> count > 0) && how < 3
    ensures var end := SplitRun(Split(list, count, None, None, None), b, Interleaving(allocFirst, how));
            && end.count == count
            && end.list == (if allocFirst then list[count - 1 := b] else list[count := b])
            && end.got == Some(if allocFirst then (if how < 2 then list[count - 1] else b)
                               else if how < 2 then b else list[count])
  {
    hide SplitRun;
    RunFour(Split(list, count, None, None, None), b, Interleaving(allocFirst, how));
  }

  /**
   The pool works at that grain exactly when the slots are accessed in the order of the exchanges, or
   when the reader of a slot not yet written happens to find the very buffer still there. The pool may
   be drained when the return comes first.
   */
  lemma SplitPoolExact<T>(list: seq<T>, count: nat, b: T, allocFirst: bool, how: nat)
    requires count < |list| && (allocFirst ==> count > 0) && how < 3 && b !in list[..count]
    ensures var start := Split(list, count, None, None, None);
            var end := SplitRun(start, b, Interleaving(allocFirst, how));
            |end.list| == |list| && end.count == count
            && (SameAsIndivisible(start, b, end, allocFirst) <==> how < 2 || (!allocFirst && list[count] == b))
  {
    hide SplitRun, Interleaving;
    SplitOutcome(list, count, b, allocFirst, how);
    if allocFirst {
      assert list[count - 1] in list[..count];
      assert list[count - 1 := b][..count] == list[..count - 1] + [b];
      assert list[..count][..count - 1] == list[..count - 1];
    } else {
      assert list[count := b][..count] == list[..count];
    }
  }

  lemma RunFour<T>(s: Split<T>, b: T, steps: seq<PoolStep>)
    requires |steps| == 4
    ensures SplitRun(s, b, steps)
            == SplitStep(SplitStep(SplitStep(SplitStep(s, b, steps[0]), b, steps[1]), b, steps[2]), b, steps[3])
  {
    hide SplitStep;
    var s1 := SplitStep(s, b, steps[0]);
    var s2 := SplitStep(s1, b, steps[1]);
    var s3 := SplitStep(s2, b, steps[2]);
    assert SplitRun(s, b, steps) == SplitRun(s1, b, steps[1..]);
    assert steps[1..][0] == steps[1] && steps[1..][1..] == steps[2..];
    assert SplitRun(s1, b, steps[1..]) == SplitRun(s2, b, steps[2..]);
    assert steps[2..][0] == steps[2] && steps[2..][1..] == steps[3..];
    assert SplitRun(s2, b, steps[2..]) == SplitRun(s3, b, steps[3..]);
    assert steps[3..][0] == steps[3] && steps[3..][1..] == [];
    assert SplitRun(s3, b, steps[3..]) == SplitRun(SplitStep(s3, b, steps[3]), b, []);
  }

  /**
   Exclusive ownership fails between the two halves: buffers 0 and 1, buffer 1 in the worker's hand
   and being returned while the subscriber allocates. The subscriber gets buffer 1, which is also the
   next free buffer; buffer 0 is lost.
   */
  lemma SplitPoolSharesBuffer()
    ensures var end := SplitRun(Split([0, 1], 1, None, None, None), 1, [AllocCas, FreeCas, FreeWrite, AllocRead]);
            end.got == Some(1) && end.list[..end.count] == [1]
  {
    RunFour(Split([0, 1], 1, None, None, None), 1, [AllocCas, FreeCas, FreeWrite, AllocRead]);
  }

  // ----- the pool -----

  class BufferPool {
    const buffers: seq<MessageBuffer>
    const freeList: array<MessageBuffer>
    var freeCount: nat
    var totalAllocations: nat
    var totalDeallocations: nat
    var allocationFailures: nat

    ghost function View(): Pool<MessageBuffer>
      reads this, freeList
    {
      Pool(freeList[..], freeCount, totalAllocations, totalDeallocations, allocationFailures)
    }

    ghost function Valid(): (valid: bool)
      reads this, freeList, buffers`actualPayloadLength
      ensures valid ==> freeCount <= |buffers| == freeList.Length
      ensures valid ==> forall b | b in buffers :: b.Valid()
    {
      && 0 < |buffers| <= 65536 && freeList.Length == |buffers| && freeCount <= |buffers|
      && (forall i, j | 0 <= i < j < |buffers| :: buffers[i] != buffers[j] && buffers[i].payload != buffers[j].payload)
      && (forall b | b in buffers :: b.Valid())
      && (forall i | 0 <= i < freeList.Length :: freeList[i] in buffers)
    }

    ghost function Free(): seq<MessageBuffer>
      requires freeCount <= freeList.Length
      reads this, freeList
    {
      freeList[..freeCount]
    }

    constructor (poolSize: nat)
      requires 0 < poolSize <= 65536
      ensures Valid() && fresh(freeList) && fresh(buffers) && |buffers| == poolSize
      ensures forall b | b in buffers :: fresh(b.payload) && !b.inUse
      ensures View() == Fresh(buffers) && Free() == buffers
    {
      var all: seq<MessageBuffer> := [];
      var i := 0;
      while i < poolSize
        invariant 0 <= i <= poolSize && |all| == i
        invariant fresh(all)
        invariant forall b | b in all :: b.Valid() && fresh(b.payload) && !b.inUse
        invariant forall j, k | 0 <= j < k < i :: all[j] != all[k] && all[j].payload != all[k].payload
      {
        var b := new MessageBuffer();
        all := all + [b];
        i := i + 1;
      }
      buffers := all;
      freeList := new MessageBuffer[poolSize](k requires 0 <= k < poolSize => all[k]);
      freeCount := poolSize;
      totalAllocations, totalDeallocations, allocationFailures := 0, 0, 0;
      new;
      assert freeList[..] == all;
    }

    /** compare_exchange_weak on free_count_; `glitch` makes it fail without cause. */
    method CompareExchange(expected: nat, desired: nat, glitch: bool) returns (ok: bool, observed: nat)
      modifies this`freeCount
      ensures observed == old(freeCount) && ok == (observed == expected && !glitch)
      ensures freeCount == if ok then desired else old(freeCount)
    {
      observed := freeCount;
      ok := observed == expected && !glitch;
      if ok {
        freeCount := desired;
      }
    }

    /** However often the weak exchange fails first, the outcome is one successful turn of the loop. */
    method Allocate(glitches: nat) returns (buf: MessageBuffer?)
      requires Valid()
      modifies this, buffers
      ensures Valid()
      ensures View() == AllocTurn(old(View()), old(freeCount), false).0
      ensures buf == null <==> old(Free()) == []
      ensures buf == null ==> Free() == [] && forall b | b in buffers :: unchanged(b)
      ensures buf != null ==> buf in buffers && old(Free()) == Free() + [buf]
      ensures buf != null ==> buf.inUse && buf.Contents() == Content(BLANK, [])
      ensures forall b | b in buffers && b != buf :: unchanged(b)
    {
      var count := freeCount;
      var left := glitches;
      while count > 0
        invariant count == freeCount == old(freeCount)
        invariant View() == old(View()) && forall b | b in buffers :: unchanged(b)
        decreases left
      {
        var ok, observed := CompareExchange(count, count - 1, left > 0);
        if ok {
          buf := freeList[count - 1];
          buf.inUse := true;
          buf.Reset();
          totalAllocations := totalAllocations + 1;
          assert old(Free()) == Free() + [buf];
          return buf;
        }
        count := observed;
        left := left - 1;
      }
      allocationFailures := allocationFailures + 1;
      return null;
    }

    /** Null and foreign pointers are refused; a return beyond the pool's size is dropped. */
    method Deallocate(buf: MessageBuffer?, glitches: nat)
      requires Valid()
      modifies this, freeList, (if buf == null then {} else {buf})`inUse
      ensures Valid()
      ensures buf == null || buf !in buffers ==> View() == old(View())
      ensures buf != null && buf !in buffers ==> unchanged(buf)
      ensures buf != null ==> unchanged(buf`header, buf`actualPayloadLength, buf`workerDequeueTimeNs)
      ensures buf != null && buf in buffers ==> View() == FreeTurn(old(View()), old(freeCount), buf, false).0 && !buf.inUse
      ensures buf != null && buf in buffers && old(freeCount) < |buffers| ==> Free() == old(Free()) + [buf]
    {
      if buf == null {
        return;
      }
      if buf !in buffers {
        return;
      }
      buf.inUse := false;
      var count := freeCount;
      var left := glitches;
      while count < |buffers|
        invariant count == freeCount == old(freeCount)
        invariant Valid() && View() == old(View()) && !buf.inUse
        invariant unchanged(buf`header, buf`actualPayloadLength, buf`workerDequeueTimeNs)
        decreases left
      {
        var ok, observed := CompareExchange(count, count + 1, left > 0);
        if ok {
          freeList[count] := buf;
          totalDeallocations := totalDeallocations + 1;
          assert freeList[..] == old(freeList[..])[count := buf];
          return;
        }
        count := observed;
        left := left - 1;
      }
    }

    method Available() returns (n: nat)
      requires Valid()
      ensures n == |Free()|
    {
      n := freeCount;
    }
  }
}

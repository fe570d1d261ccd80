/**
 The single-producer single-consumer ring of MessageQueue.h and SPSCQueue.h, one atomic load or store
 at a time, and its refinement to a bounded FIFO. A run is a schedule: a sequence of actions saying
 which of the two threads takes its next step. The interleaving is sequentially consistent.
 */
module SpscRing {
  import opened Bytes
  import opened Wrappers

  /** Where the producer stands inside enqueue; the cached tail is the index it loaded. */
  datatype Producer<+T> =
    | Quiet
    | HasTail(item: T, tail: nat)
    | HasRoom(item: T, tail: nat)
    | Stored(item: T, tail: nat)
    | Published

  /** Where the consumer stands inside dequeue; the cached head is the index it loaded. */
  datatype Consumer<+T> =
    | Resting
    | HasHead(head: nat)
    | SawItem(head: nat)
    | Took(taken: T, head: nat)
    | Nulled(taken: T, head: nat)
    | Released

  /** The pointer ring nulls vacated slots and counts; the value ring does neither. */
  datatype Kind = PointerRing | ValueRing

  /**
   Shared memory, both threads' positions, the queue's counters, and the history of the run:
   every item ever published and every item ever released.
   */
  datatype Ring<T> = Ring(
    kind: Kind, slots: seq<Option<T>>, head: nat, tail: nat,
    producer: Producer<T>, consumer: Consumer<T>,
    enqueued: nat, dequeued: nat, failures: nat,
    pushed: seq<T>, popped: seq<T>)

  /** Fault: the consumer would hand out an empty slot. */
  datatype Event<+T> = Silent | Pushed(item: T) | Full | Popped(item: T) | Empty | Fault

  datatype Action<+T> = Produce(offer: T) | Consume

  function Init<T>(kind: Kind, size: nat): Ring<T> {
    Ring(kind, seq(size, _ => None), 0, 0, Quiet, Resting, 0, 0, 0, [], [])
  }

  function Size<T>(r: Ring<T>): nat {
    |r.slots|
  }

  function InBounds<T>(r: Ring<T>): (b: bool)
    ensures b ==> Size(r) >= 2 && r.head < Size(r) && r.tail < Size(r)
  {
    && Size(r) >= 2 && r.head < Size(r) && r.tail < Size(r)
    && (r.producer.HasTail? || r.producer.HasRoom? || r.producer.Stored? ==> r.producer.tail < Size(r))
    && (r.consumer.HasHead? || r.consumer.SawItem? || r.consumer.Took? || r.consumer.Nulled?
        ==> r.consumer.head < Size(r))
  }

  /** An enqueuer's next atomic step; `offer` matters only when no enqueue is under way. */
  function ProducerStep<T>(r: Ring<T>, offer: T): (next: (Ring<T>, Event<T>))
    requires InBounds(r)
    ensures InBounds(next.0) && Size(next.0) == Size(r)
  {
    match r.producer
    case Quiet => (r.(producer := HasTail(offer, r.tail)), Silent)
    case HasTail(x, t) =>
      if Wrap(t + 1, Size(r)) == r.head
      then (r.(producer := Quiet, failures := r.failures + 1), Full)
      else (r.(producer := HasRoom(x, t)), Silent)
    case HasRoom(x, t) => (r.(producer := Stored(x, t), slots := r.slots[t := Some(x)]), Silent)
    case Stored(x, t) =>
      (r.(producer := if r.kind.PointerRing? then Published else Quiet,
          tail := Wrap(t + 1, Size(r)), pushed := r.pushed + [x]), Pushed(x))
    case Published => (r.(producer := Quiet, enqueued := r.enqueued + 1), Silent)
  }

  /** A dequeuer's next atomic step. */
  function ConsumerStep<T>(r: Ring<T>): (next: (Ring<T>, Event<T>))
    requires InBounds(r)
    ensures InBounds(next.0) && Size(next.0) == Size(r)
  {
    match r.consumer
    case Resting => (r.(consumer := HasHead(r.head)), Silent)
    case HasHead(h) =>
      if h == r.tail then (r.(consumer := Resting), Empty) else (r.(consumer := SawItem(h)), Silent)
    case SawItem(h) =>
      if r.slots[h].None? then (r, Fault) else (r.(consumer := Took(r.slots[h].value, h)), Silent)
    case Took(x, h) =>
      if r.kind.PointerRing?
      then (r.(consumer := Nulled(x, h), slots := r.slots[h := None]), Silent)
      else (r.(consumer := Resting, head := Wrap(h + 1, Size(r)), popped := r.popped + [x]), Popped(x))
    case Nulled(x, h) =>
      (r.(consumer := Released, head := Wrap(h + 1, Size(r)), popped := r.popped + [x]), Popped(x))
    case Released => (r.(consumer := Resting, dequeued := r.dequeued + 1), Silent)
  }

  function Step<T>(r: Ring<T>, a: Action<T>): (next: (Ring<T>, Event<T>))
    requires InBounds(r)
    ensures InBounds(next.0) && Size(next.0) == Size(r)
  {
    match a
    case Produce(x) => ProducerStep(r, x)
    case Consume => ConsumerStep(r)
  }

  function Run<T>(r: Ring<T>, schedule: seq<Action<T>>): (end: Ring<T>)
    requires InBounds(r)
    ensures InBounds(end) && Size(end) == Size(r)
    decreases |schedule|
  {
    if schedule == [] then r else Run(Step(r, schedule[0]).0, schedule[1..])
  }

  function Trace<T>(r: Ring<T>, schedule: seq<Action<T>>): seq<Event<T>>
    requires InBounds(r)
    decreases |schedule|
  {
    if schedule == [] then [] else [Step(r, schedule[0]).1] + Trace(Step(r, schedule[0]).0, schedule[1..])
  }

  // ----- invariant -----

  /** The queue as a FIFO: published and not yet released. */
  function Contents<T>(r: Ring<T>): seq<T> {
    if |r.popped| <= |r.pushed| then r.pushed[|r.popped|..] else []
  }

  /** First history index whose slot the consumer has not cleared. */
  function FirstLive<T>(r: Ring<T>): nat {
    |r.popped| + (if r.consumer.Nulled? then 1 else 0)
  }

  ghost predicate LiveSlots<T>(r: Ring<T>)
    requires Size(r) > 0
  {
    forall i: nat | FirstLive(r) <= i < |r.pushed| :: r.slots[Wrap(i, Size(r))] == Some(r.pushed[i])
  }

  ghost predicate ProducerInv<T>(r: Ring<T>)
    requires InBounds(r)
  {
    match r.producer
    case Quiet => true
    case Published => true
    case HasTail(x, t) => t == r.tail
    case HasRoom(x, t) => t == r.tail && |r.pushed| < |r.popped| + Size(r) - 1
    case Stored(x, t) => t == r.tail && |r.pushed| < |r.popped| + Size(r) - 1 && r.slots[t] == Some(x)
  }

  ghost predicate ConsumerInv<T>(r: Ring<T>)
    requires InBounds(r)
  {
    match r.consumer
    case Resting => true
    case Released => true
    case HasHead(h) => h == r.head
    case SawItem(h) => h == r.head && |r.popped| < |r.pushed|
    case Took(x, h) => h == r.head && |r.popped| < |r.pushed| && x == r.pushed[|r.popped|]
    case Nulled(x, h) => h == r.head && |r.popped| < |r.pushed| && x == r.pushed[|r.popped|]
  }

  /**
   Indices are the history lengths modulo the size; between them every slot holds the item published
   there; what each thread cached is still true of its own index.
   */
  ghost function Inv<T>(r: Ring<T>): (inv: bool)
    ensures inv ==> InBounds(r)
  {
    && InBounds(r)
    && r.head == Wrap(|r.popped|, Size(r))
    && r.tail == Wrap(|r.pushed|, Size(r))
    && |r.popped| <= |r.pushed| < |r.popped| + Size(r)
    && r.popped == r.pushed[..|r.popped|]
    && ProducerInv(r)
    && ConsumerInv(r)
    && LiveSlots(r)
  }

  /** The statistics lag the history by the update still to be made. */
  ghost predicate Counted<T>(r: Ring<T>) {
    && r.enqueued + (if r.producer.Published? then 1 else 0) == |r.pushed|
    && r.dequeued + (if r.consumer.Released? then 1 else 0) == |r.popped|
  }

  lemma FullMeansFull(pushed: nat, popped: nat, size: nat)
    requires size >= 2 && popped <= pushed < popped + size
    ensures Wrap(Wrap(pushed, size) + 1, size) == Wrap(popped, size) <==> pushed == popped + size - 1
  {
    hide Wrap;
    WrapNext(pushed, size);
    if pushed + 1 == popped + size {
      WrapAround(popped, size);
    } else {
      SlotsDistinct(popped, pushed + 1, size);
    }
  }

  lemma EmptyMeansEmpty(pushed: nat, popped: nat, size: nat)
    requires size >= 2 && popped <= pushed < popped + size
    ensures Wrap(popped, size) == Wrap(pushed, size) <==> pushed == popped
  {
    if popped < pushed {
      SlotsDistinct(popped, pushed, size);
    }
  }

  lemma {:induction false} StoreSparesLive<T>(r: Ring<T>, x: T)
    requires Inv(r) && r.producer.HasRoom?
    ensures LiveSlots(r.(slots := r.slots[r.tail := Some(x)]))
  {
    hide Wrap;
    forall i: nat | FirstLive(r) <= i < |r.pushed|
      ensures r.slots[r.tail := Some(x)][Wrap(i, Size(r))] == Some(r.pushed[i])
    {
      SlotsDistinct(i, |r.pushed|, Size(r));
    }
  }

  /** Nulling the vacated slot before publishing the head touches no entry still to be delivered. */
  lemma {:induction false} NullSparesLive<T>(r: Ring<T>)
    requires Inv(r) && r.consumer.Took?
    ensures LiveSlots(r.(slots := r.slots[r.head := None], consumer := Nulled(r.consumer.taken, r.head)))
    ensures r.producer.Stored? ==> r.slots[r.head := None][r.tail] == r.slots[r.tail]
  {
    hide Wrap;
    SlotsDistinct(|r.popped|, |r.pushed|, Size(r));
    forall i: nat | |r.popped| + 1 <= i < |r.pushed|
      ensures r.slots[r.head := None][Wrap(i, Size(r))] == Some(r.pushed[i])
    {
      SlotsDistinct(|r.popped|, i, Size(r));
    }
  }

  lemma PublishKeepsLive<T>(r: Ring<T>, x: T)
    requires Inv(r) && r.producer.Stored? && x == r.producer.item
    ensures LiveSlots(ProducerStep(r, x).0)
  {
    hide Wrap;
    var r' := ProducerStep(r, x).0;
    forall i: nat | FirstLive(r') <= i < |r'.pushed|
      ensures r'.slots[Wrap(i, Size(r'))] == Some(r'.pushed[i])
    {
      if i < |r.pushed| {
        assert r'.pushed[i] == r.pushed[i];
      }
    }
  }

  // ----- the bounded FIFO -----

  /** What a FIFO of the given capacity may do; None when the event is not one of its moves. */
  ghost function FifoStep<T>(q: seq<T>, capacity: nat, e: Event<T>): Option<seq<T>> {
    match e
    case Silent => Some(q)
    case Pushed(x) => if |q| < capacity then Some(q + [x]) else None
    case Full => if |q| == capacity then Some(q) else None
    case Popped(x) => if q != [] && q[0] == x then Some(q[1..]) else None
    case Empty => if q == [] then Some(q) else None
    case Fault => None
  }

  ghost function FifoRun<T>(q: seq<T>, capacity: nat, trace: seq<Event<T>>): Option<seq<T>>
    decreases |trace|
  {
    if trace == [] then Some(q)
    else
      var next := FifoStep(q, capacity, trace[0]);
      if next.None? then None else FifoRun(next.value, capacity, trace[1..])
  }

  ghost predicate Refined<T>(r: Ring<T>, next: (Ring<T>, Event<T>))
    requires Size(r) > 0
  {
    Inv(next.0) && FifoStep(Contents(r), Size(r) - 1, next.1) == Some(Contents(next.0))
  }

  lemma ProducerChecks<T>(r: Ring<T>, offer: T)
    requires Inv(r) && r.producer.HasTail?
    ensures Refined(r, ProducerStep(r, offer))
  {
    hide Wrap;
    FullMeansFull(|r.pushed|, |r.popped|, Size(r));
  }

  lemma ProducerStores<T>(r: Ring<T>, offer: T)
    requires Inv(r) && r.producer.HasRoom?
    ensures Refined(r, ProducerStep(r, offer))
  {
    hide Wrap;
    StoreSparesLive(r, r.producer.item);
  }

  lemma PublishKeepsConsumer<T>(r: Ring<T>, x: T)
    requires Inv(r) && r.producer.Stored? && x == r.producer.item
    ensures ConsumerInv(ProducerStep(r, x).0)
    ensures var r' := ProducerStep(r, x).0; r'.popped == r'.pushed[..|r'.popped|]
  {
    hide Wrap, LiveSlots;
    assert forall i | 0 <= i < |r.pushed| :: (r.pushed + [x])[i] == r.pushed[i];
  }

  lemma TailSnoc<T>(s: seq<T>, x: T, k: nat)
    requires k <= |s|
    ensures (s + [x])[k..] == s[k..] + [x]
  {
  }

  lemma TailHead<T>(s: seq<T>, k: nat)
    requires k < |s|
    ensures s[k..] == [s[k]] + s[k + 1..]
  {
  }

  lemma Lengths<T>(r: Ring<T>)
    requires Inv(r)
    ensures |r.popped| <= |r.pushed|
    ensures r.producer.Stored? ==> |r.pushed| < |r.popped| + Size(r) - 1
    ensures r.consumer.Took? || r.consumer.Nulled? ==> |r.popped| < |r.pushed| && r.consumer.taken == r.pushed[|r.popped|]
  {
    hide Wrap, LiveSlots;
  }

  lemma PublishMoves<T>(r: Ring<T>, x: T)
    requires Inv(r) && r.producer.Stored? && x == r.producer.item
    ensures var (r', e) := ProducerStep(r, x);
            e == Pushed(x) && Contents(r') == Contents(r) + [x] && |Contents(r)| < Size(r) - 1
  {
    hide Inv, Wrap;
    Lengths(r);
    TailSnoc(r.pushed, x, |r.popped|);
  }

  lemma ProducerPublishes<T>(r: Ring<T>, offer: T)
    requires Inv(r) && r.producer.Stored?
    ensures Refined(r, ProducerStep(r, offer))
  {
    hide Wrap, LiveSlots, ConsumerInv, Contents;
    WrapNext(|r.pushed|, Size(r));
    PublishKeepsLive(r, r.producer.item);
    PublishKeepsConsumer(r, r.producer.item);
    PublishMoves(r, r.producer.item);
  }

  lemma ProducerRefines<T>(r: Ring<T>, offer: T)
    requires Inv(r)
    ensures Refined(r, ProducerStep(r, offer))
  {
    match r.producer {
      case HasTail(_, _) => ProducerChecks(r, offer);
      case HasRoom(_, _) => ProducerStores(r, offer);
      case Stored(_, _) => ProducerPublishes(r, offer);
      case _ =>
    }
  }

  lemma ConsumerChecks<T>(r: Ring<T>)
    requires Inv(r) && r.consumer.HasHead?
    ensures Refined(r, ConsumerStep(r))
  {
    hide Wrap;
    EmptyMeansEmpty(|r.pushed|, |r.popped|, Size(r));
  }

  lemma ConsumerNulls<T>(r: Ring<T>)
    requires Inv(r) && r.consumer.Took? && r.kind.PointerRing?
    ensures Refined(r, ConsumerStep(r))
  {
    hide Wrap;
    NullSparesLive(r);
  }

  /** The released slot leaves the live ones; what the producer cached stays true. */
  lemma ReleaseKeepsRest<T>(r: Ring<T>)
    requires Inv(r)
    requires r.consumer.Nulled? || (r.consumer.Took? && r.kind.ValueRing?)
    ensures LiveSlots(ConsumerStep(r).0) && ProducerInv(ConsumerStep(r).0)
    ensures var r' := ConsumerStep(r).0; r'.popped == r'.pushed[..|r'.popped|]
  {
    hide Wrap;
  }

  lemma ReleaseMoves<T>(r: Ring<T>)
    requires Inv(r)
    requires r.consumer.Nulled? || (r.consumer.Took? && r.kind.ValueRing?)
    ensures var (r', e) := ConsumerStep(r);
            e == Popped(r.consumer.taken) && Contents(r) == [r.consumer.taken] + Contents(r')
  {
    hide Inv, Wrap;
    Lengths(r);
    TailHead(r.pushed, |r.popped|);
  }

  lemma ConsumerReleases<T>(r: Ring<T>)
    requires Inv(r)
    requires r.consumer.Nulled? || (r.consumer.Took? && r.kind.ValueRing?)
    ensures Refined(r, ConsumerStep(r))
  {
    hide Wrap, LiveSlots, ProducerInv, Contents;
    WrapNext(|r.popped|, Size(r));
    ReleaseKeepsRest(r);
    ReleaseMoves(r);
  }

  lemma ConsumerRefines<T>(r: Ring<T>)
    requires Inv(r)
    ensures Refined(r, ConsumerStep(r))
  {
    match r.consumer {
      case HasHead(_) => ConsumerChecks(r);
      case Took(_, _) =>
        if r.kind.PointerRing? {
          ConsumerNulls(r);
        } else {
          ConsumerReleases(r);
        }
      case Nulled(_, _) => ConsumerReleases(r);
      case _ =>
    }
  }

  lemma {:induction false} StepRefines<T>(r: Ring<T>, a: Action<T>)
    requires Inv(r)
    ensures var (r', e) := Step(r, a);
            Inv(r') && FifoStep(Contents(r), Size(r) - 1, e) == Some(Contents(r'))
  {
    hide Inv, ProducerStep, ConsumerStep, FifoStep, Contents;
    match a {
      case Produce(x) => ProducerRefines(r, x);
      case Consume => ConsumerRefines(r);
    }
  }

  lemma InitInv<T>(kind: Kind, size: nat)
    requires size >= 2
    ensures Inv(Init<T>(kind, size)) && Contents(Init<T>(kind, size)) == []
  {
  }

  /**
   Refinement: whatever the interleaving, the pushes, pops and refusals of a run are exactly those of
   a FIFO of capacity size - 1. So nothing is lost, duplicated or reordered, "full" and "empty" are
   answered only when they hold at the load that decided them, and no empty slot is handed out.
   */
  lemma {:induction false} RunRefines<T>(r: Ring<T>, schedule: seq<Action<T>>)
    requires Inv(r)
    ensures Inv(Run(r, schedule))
    ensures FifoRun(Contents(r), Size(r) - 1, Trace(r, schedule)) == Some(Contents(Run(r, schedule)))
    decreases |schedule|
  {
    hide Inv, Step, Contents, FifoStep;
    if schedule != [] {
      StepRefines(r, schedule[0]);
      RunRefines(Step(r, schedule[0]).0, schedule[1..]);
    }
  }

  /** In particular every run of an empty queue, of either kind. */
  lemma {:induction false} QueueRefinesFifo<T>(kind: Kind, size: nat, schedule: seq<Action<T>>)
    requires size >= 2
    ensures var r := Init<T>(kind, size);
            FifoRun([], size - 1, Trace(r, schedule)) == Some(Contents(Run(r, schedule)))
  {
    hide Run, Trace, FifoRun, Inv;
    InitInv<T>(kind, size);
    RunRefines(Init<T>(kind, size), schedule);
  }

  ghost function Pops<T>(trace: seq<Event<T>>): nat
    decreases |trace|
  {
    if trace == [] then 0 else (if trace[0].Popped? then 1 else 0) + Pops(trace[1..])
  }

  /** A queue holding n items cannot answer "empty" before n of them have been taken. */
  lemma {:induction false} EmptyOnlyAfterPops<T>(r: Ring<T>, schedule: seq<Action<T>>)
    requires Inv(r) && Empty in Trace(r, schedule)
    ensures Pops(Trace(r, schedule)) >= |Contents(r)|
    decreases |schedule|
  {
    hide Inv, Step, Contents;
    var (r', e) := Step(r, schedule[0]);
    StepRefines(r, schedule[0]);
    if e != Empty {
      assert Trace(r, schedule)[1..] == Trace(r', schedule[1..]);
      EmptyOnlyAfterPops(r', schedule[1..]);
    }
  }

  lemma {:induction false} DepthArithmetic(pushed: nat, popped: nat, size: nat)
    requires size > 0 && popped <= pushed < popped + size
    ensures (Wrap(pushed, size) - Wrap(popped, size)) % size == pushed - popped
  {
    if popped >= size {
      DepthArithmetic(pushed - size, popped - size, size);
    } else if pushed >= size {
      ModuloUnique(pushed - size - popped, size, -1, pushed - popped);
    } else {
      ModuloUnique(pushed - popped, size, 0, pushed - popped);
    }
  }

  /** The masked index difference is the number of queued items, at the instant both indices are read. */
  lemma {:induction false} DepthIsExact<T>(r: Ring<T>)
    requires Inv(r)
    ensures (r.tail - r.head) % Size(r) == |Contents(r)|
  {
    hide Wrap, LiveSlots, ProducerInv, ConsumerInv;
    DepthArithmetic(|r.pushed|, |r.popped|, Size(r));
  }

  lemma StepCounted<T>(r: Ring<T>, a: Action<T>)
    requires Inv(r) && Counted(r) && r.kind.PointerRing?
    ensures Counted(Step(r, a).0)
  {
    hide LiveSlots, Wrap;
  }

  /** One thread running alone: n copies of its action. */
  function Solo<T>(n: nat, a: Action<T>): seq<Action<T>> {
    seq(n, _ => a)
  }

  lemma RunSolo<T>(r: Ring<T>, n: nat, a: Action<T>)
    requires InBounds(r)
    ensures Run(r, Solo(n, a)) == if n == 0 then r else Run(Step(r, a).0, Solo(n - 1, a))
  {
    hide Step;
    if n > 0 {
      assert Solo(n, a)[1..] == Solo(n - 1, a);
    }
  }
}

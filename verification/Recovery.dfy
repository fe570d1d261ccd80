/**
 Checkpointing across process crashes: the subscriber's update and the flusher's snapshot interleave
 store by store and load by load, a crash may fall between any two steps, and a restarted subscriber
 in replay-auto mode replays the stream from the position it finds in the file (main.cpp).
 */
module Recovery {
  import opened Bytes
  import opened Wrappers
  import opened Checkpoints

  datatype Message = Message(number: int64, position: int64)

  /** The recorded stream, which a replay delivers in order, and the start position given on the command line. */
  datatype World = World(stream: seq<Message>, cliPosition: int64)

  /** Positions grow along the stream and are positive. */
  ghost predicate Ascending(stream: seq<Message>) {
    && (forall i | 0 <= i < |stream| :: stream[i].position > 0)
    && (forall i, j | 0 <= i < j < |stream| :: stream[i].position < stream[j].position)
  }

  /** The first message a replay from position p delivers. */
  function StartIndex(stream: seq<Message>, p: int): (k: nat)
    ensures k <= |stream|
  {
    if stream == [] || stream[0].position > p then 0 else 1 + StartIndex(stream[1..], p)
  }

  /** The restart rule: a positive checkpoint position overrides the command line. */
  function ReplayFrom(w: World, p: int64): int64 {
    if p > 0 then p else w.cliPosition
  }

  function Resume(w: World, p: int64): (k: nat)
    ensures k <= |w.stream|
  {
    StartIndex(w.stream, ReplayFrom(w, p))
  }

  /** Where the flusher stands; `from` tells, field by field, which update each value came from. */
  datatype Flusher =
    | Asleep
    | Reading(got: seq<int64>, from: seq<nat>)
    | Opening(record: Record, from: seq<nat>)
    | Writing(record: Record, from: seq<nat>, written: nat)
    | Renaming(record: Record, from: seq<nat>)

  /** The messages one process presented to the fast path. */
  datatype Span = Span(start: nat, end: nat)

  /**
   One process and the disk it leaves behind. The log holds what was loaded and every update since;
   of the last update only the first `stored` fields have reached the memory. `accepted` says which
   messages the updates were for.
   */
  datatype State = State(
    memory: Record, disk: Disk, flusher: Flusher,
    start: nat, cursor: nat, received: nat,
    log: seq<Record>, stored: nat, accepted: seq<nat>,
    past: seq<Span>, persisted: seq<Record>)

  function Loaded(disk: Disk): Record {
    if Stored(disk).Some? then Stored(disk).value else NO_RECORD
  }

  function Boot(w: World, disk: Disk, past: seq<Span>, persisted: seq<Record>): State {
    var r := Loaded(disk);
    var k := Resume(w, r.position);
    State(r, disk, Asleep, k, k, 0, [r], 4, [], past, persisted)
  }

  function Field(r: Record, k: nat): int64 {
    if k == 0 then r.sequence else if k == 1 then r.position else if k == 2 then r.count else r.timestamp
  }

  function SetField(r: Record, k: nat, v: int64): Record {
    if k == 0 then r.(sequence := v) else if k == 1 then r.(position := v) else if k == 2 then r.(count := v) else r.(timestamp := v)
  }

  /** The index in the log of the update whose k-th field is in memory. */
  function Current(s: State, k: nat): int {
    if k < s.stored then |s.log| - 1 else |s.log| - 2
  }

  /** The same, for the flusher to note. */
  function Source(s: State, k: nat): nat {
    if Current(s, k) >= 0 then Current(s, k) else 0
  }

  datatype Action =
    | Receive(accepted: bool, now: int64)
    | Flush(ok: bool, chunk: nat)
    | Crash

  /** The subscriber's next step: the next store of an update under way, or the next message. */
  function ReceiveStep(w: World, s: State, accepted: bool, now: int64): State {
    if s.stored < 4 && s.log != [] then
      s.(memory := SetField(s.memory, s.stored, Field(s.log[|s.log| - 1], s.stored)), stored := s.stored + 1)
    else if s.cursor >= |w.stream| then s
    else if !accepted then s.(cursor := s.cursor + 1)
    else
      var m := w.stream[s.cursor];
      s.(cursor := s.cursor + 1, received := s.received + 1,
         log := s.log + [Record(m.number, m.position, AsInt64(s.received + 1), now)], stored := 0,
         accepted := s.accepted + [s.cursor])
  }

  /** The flusher's next step; its file operations may fail, and a write may stop after any byte. */
  function FlushStep(s: State, ok: bool, chunk: nat): State {
    match s.flusher
    case Asleep => s.(flusher := Reading([], []))
    case Reading(got, from) => (
      var k := |got|;
      var got' := got + [Field(s.memory, k)];
      var from' := from + [Source(s, k)];
      if |got'| < 4 then s.(flusher := Reading(got', from'))
      else if got'[0] == 0 && got'[1] == 0 && got'[2] == 0 then s.(flusher := Asleep)
      else s.(flusher := Opening(Record(got'[0], got'[1], got'[2], got'[3]), from')))
    case Opening(r, from) =>
      if !ok then s.(flusher := Asleep)
      else s.(flusher := Writing(r, from, 0), disk := s.disk.(temp := Some([])))
    case Writing(r, from, written) => (
      var image := EncodeRecord(r);
      var n := if written + chunk < |image| then written + chunk else |image|;
      s.(flusher := if !ok then Asleep else if n == |image| then Renaming(r, from) else Writing(r, from, n),
         disk := s.disk.(temp := Some(image[..n]))))
    case Renaming(r, from) =>
      if !ok then s.(flusher := Asleep)
      else s.(flusher := Asleep, disk := Disk(s.disk.temp, None), persisted := s.persisted + [r])
  }

  function Step(w: World, s: State, a: Action): State {
    match a
    case Receive(accepted, now) => ReceiveStep(w, s, accepted, now)
    case Flush(ok, chunk) => FlushStep(s, ok, chunk)
    case Crash => Boot(w, s.disk, s.past + [Span(s.start, s.cursor)], s.persisted)
  }

  function Run(w: World, disk: Disk, schedule: seq<Action>): State
    decreases |schedule|
  {
    if schedule == [] then Boot(w, disk, [], [])
    else Step(w, Run(w, disk, schedule[..|schedule| - 1]), schedule[|schedule| - 1])
  }

  // ----- the memory and the snapshot -----

  ghost predicate Remembers(s: State) {
    && |s.log| >= 1 && s.stored <= 4 && (|s.log| == 1 ==> s.stored == 4)
    && forall k | 0 <= k < 4 :: Field(s.memory, k) == Field(s.log[Current(s, k)], k)
  }

  function FieldsOf(r: Record): seq<int64> {
    [r.sequence, r.position, r.count, r.timestamp]
  }

  /** What the flusher has read so far and where each value came from. */
  function Snapshot(f: Flusher): (seq<int64>, seq<nat>) {
    match f
    case Asleep => ([], [])
    case Reading(got, from) => (got, from)
    case Opening(r, from) => (FieldsOf(r), from)
    case Writing(r, from, _) => (FieldsOf(r), from)
    case Renaming(r, from) => (FieldsOf(r), from)
  }

  /** Every value is the field of a logged record, and none lags an earlier-read one by more than an update. */
  ghost predicate Skewed(log: seq<Record>, got: seq<int64>, from: seq<nat>) {
    && |got| == |from| <= 4
    && (forall k | 0 <= k < |got| :: from[k] < |log| && got[k] == Field(log[from[k]], k))
    && (forall i, j | 0 <= i < j < |from| :: from[j] + 1 >= from[i])
  }

  ghost predicate Snapped(s: State) {
    && Skewed(s.log, Snapshot(s.flusher).0, Snapshot(s.flusher).1)
    && (s.flusher.Reading? ==> |s.flusher.got| < 4)
    && (s.flusher.Opening? || s.flusher.Writing? || s.flusher.Renaming? ==> |s.flusher.from| == 4)
    && forall k | 0 <= k < |Snapshot(s.flusher).1| :: Snapshot(s.flusher).1[k] <= Current(s, k)
  }

  // ----- the files -----

  ghost predicate Filed(main: Option<seq<byte>>, s: State) {
    && (s.flusher.Writing? ==> s.flusher.written < RECORD_SIZE
                               && s.disk.temp == Some(EncodeRecord(s.flusher.record)[..s.flusher.written]))
    && (s.flusher.Renaming? ==> s.disk.temp == Some(EncodeRecord(s.flusher.record)))
    && s.disk.main == if s.persisted == [] then main else Some(EncodeRecord(s.persisted[|s.persisted| - 1]))
  }

  // ----- positions -----

  ghost predicate Rising(s: State) {
    && |s.log| >= 1
    && (forall i, j | 0 <= i < j < |s.log| :: s.log[i].position <= s.log[j].position)
    && Loaded(s.disk).position <= s.memory.position
    && (|Snapshot(s.flusher).0| >= 2 ==> Loaded(s.disk).position <= Snapshot(s.flusher).0[1] <= s.memory.position)
    && (forall i, j | 0 <= i < j < |s.persisted| :: s.persisted[i].position <= s.persisted[j].position)
    && (s.persisted != [] ==> Loaded(s.disk) == s.persisted[|s.persisted| - 1])
  }

  // ----- coverage -----

  ghost predicate Within(first: nat, k: nat, cursor: nat) {
    first <= k <= cursor
  }

  ghost predicate Presented(s: State, i: nat) {
    s.start <= i < s.cursor || exists k | 0 <= k < |s.past| :: s.past[k].start <= i < s.past[k].end
  }

  function Furthest(past: seq<Span>, cursor: nat): (f: nat)
    ensures f >= cursor
  {
    if past == [] then cursor
    else Furthest(past[..|past| - 1], if past[|past| - 1].end > cursor then past[|past| - 1].end else cursor)
  }

  ghost predicate Covered(w: World, first: nat, s: State) {
    && (forall k | 0 <= k < |s.log| :: Within(first, Resume(w, s.log[k].position), s.cursor))
    && Within(first, Resume(w, Loaded(s.disk).position), s.cursor)
    && first <= s.start <= s.cursor <= |w.stream|
    && forall i: nat :: Presented(s, i) <==> first <= i < Furthest(s.past, s.cursor)
  }

  /** What flushing keeps, whatever the stream. */
  ghost predicate Flushes(main: Option<seq<byte>>, s: State) {
    Remembers(s) && Snapped(s) && Filed(main, s)
  }

  /** What replaying keeps, given a stream with rising positions. */
  ghost predicate Inv(w: World, disk: Disk, s: State) {
    Flushes(disk.main, s) && Rising(s) && Covered(w, Resume(w, Loaded(disk).position), s)
  }

  // ----- flushing is kept by every step -----

  lemma StoreRemembers(w: World, s: State, accepted: bool, now: int64)
    requires Remembers(s) && s.stored < 4
    ensures Remembers(ReceiveStep(w, s, accepted, now))
  {
    var s' := ReceiveStep(w, s, accepted, now);
    forall k: nat | k < 4
      ensures Field(s'.memory, k) == Field(s'.log[Current(s', k)], k)
    {
      assert Field(s.memory, k) == Field(s.log[Current(s, k)], k);
    }
  }

  lemma ReceiveFlushes(w: World, main: Option<seq<byte>>, s: State, accepted: bool, now: int64)
    requires Flushes(main, s)
    ensures Flushes(main, ReceiveStep(w, s, accepted, now))
  {
    hide EncodeRecord, AsInt64;
    if s.stored < 4 {
      StoreRemembers(w, s, accepted, now);
    }
  }

  lemma ReadingSnapped(s: State, ok: bool, chunk: nat)
    requires Remembers(s) && Snapped(s) && (s.flusher.Asleep? || s.flusher.Reading?)
    ensures Snapped(FlushStep(s, ok, chunk))
  {
    hide EncodeRecord, Field;
    if s.flusher.Reading? {
      var got, from := s.flusher.got, s.flusher.from;
      var k := |got|;
      var v := Field(s.memory, k);
      assert v == Field(s.log[Current(s, k)], k);
      ReadSkewed(s.log, got, from, v, Current(s, k));
      if k == 3 {
        FourFields(got, v);
      }
    }
  }

  lemma FourFields(got: seq<int64>, v: int64)
    requires |got| == 3
    ensures FieldsOf(Record(got[0], got[1], got[2], v)) == got + [v]
  {
  }

  lemma ReadSkewed(log: seq<Record>, got: seq<int64>, from: seq<nat>, v: int64, at: nat)
    requires Skewed(log, got, from) && |got| < 4 && at < |log| && v == Field(log[at], |got|)
    requires at + 2 >= |log|
    ensures Skewed(log, got + [v], from + [at])
  {
  }

  lemma ReadingFlushes(main: Option<seq<byte>>, s: State, ok: bool, chunk: nat)
    requires Flushes(main, s) && (s.flusher.Asleep? || s.flusher.Reading?)
    ensures Flushes(main, FlushStep(s, ok, chunk))
  {
    hide EncodeRecord, Snapped;
    ReadingSnapped(s, ok, chunk);
  }

  lemma WritingRemembers(s: State, ok: bool, chunk: nat)
    requires Remembers(s) && (s.flusher.Opening? || s.flusher.Writing?)
    ensures Remembers(FlushStep(s, ok, chunk))
  {
    hide EncodeRecord, Field;
  }

  lemma WritingFiled(main: Option<seq<byte>>, s: State, ok: bool, chunk: nat)
    requires Filed(main, s) && (s.flusher.Opening? || s.flusher.Writing?)
    ensures Filed(main, FlushStep(s, ok, chunk))
  {
    hide EncodeRecord;
    var image := EncodeRecord(s.flusher.record);
    assert image[..RECORD_SIZE] == image && image[..0] == [];
  }

  lemma WritingFlushes(main: Option<seq<byte>>, s: State, ok: bool, chunk: nat)
    requires Flushes(main, s) && (s.flusher.Opening? || s.flusher.Writing?)
    ensures Flushes(main, FlushStep(s, ok, chunk))
  {
    hide EncodeRecord, Filed, Remembers;
    WritingRemembers(s, ok, chunk);
    WritingFiled(main, s, ok, chunk);
  }

  lemma RenamingFlushes(main: Option<seq<byte>>, s: State, ok: bool, chunk: nat)
    requires Flushes(main, s) && s.flusher.Renaming?
    ensures Flushes(main, FlushStep(s, ok, chunk))
  {
    hide EncodeRecord;
  }

  lemma StepFlushes(w: World, main: Option<seq<byte>>, s: State, a: Action)
    requires Flushes(main, s)
    ensures Flushes(main, Step(w, s, a))
  {
    hide ReceiveStep, FlushStep, EncodeRecord;
    match a {
      case Receive(accepted, now) => ReceiveFlushes(w, main, s, accepted, now);
      case Flush(ok, chunk) =>
        if s.flusher.Renaming? {
          RenamingFlushes(main, s, ok, chunk);
        } else if s.flusher.Opening? || s.flusher.Writing? {
          WritingFlushes(main, s, ok, chunk);
        } else {
          ReadingFlushes(main, s, ok, chunk);
        }
      case Crash =>
    }
  }

  lemma {:induction false} RunFlushes(w: World, disk: Disk, schedule: seq<Action>)
    ensures Flushes(disk.main, Run(w, disk, schedule))
    decreases |schedule|
  {
    hide Step, Resume, Loaded, EncodeRecord;
    if schedule != [] {
      RunFlushes(w, disk, schedule[..|schedule| - 1]);
      StepFlushes(w, disk.main, Run(w, disk, schedule[..|schedule| - 1]), schedule[|schedule| - 1]);
    }
  }

  // ----- positions and coverage are kept when positions rise along the stream -----

  lemma {:induction false} StartIndexSplits(stream: seq<Message>, p: int, i: nat)
    requires Ascending(stream) && i < |stream|
    ensures i < StartIndex(stream, p) <==> stream[i].position <= p
  {
    if stream[0].position > p {
      assert i > 0 ==> stream[0].position < stream[i].position;
    } else if i > 0 {
      assert forall k | 0 <= k < |stream[1..]| :: stream[1..][k] == stream[k + 1];
      StartIndexSplits(stream[1..], p, i - 1);
    }
  }

  /** A replay from the position of message i starts at message i + 1. */
  lemma ResumeAfter(w: World, i: nat)
    requires Ascending(w.stream) && i < |w.stream|
    ensures Resume(w, w.stream[i].position) == i + 1
  {
    StartIndexSplits(w.stream, w.stream[i].position, i);
    if i + 1 < |w.stream| {
      StartIndexSplits(w.stream, w.stream[i].position, i + 1);
    }
  }

  lemma ResumedBelow(w: World, p: int64, cursor: nat)
    requires Ascending(w.stream) && Resume(w, p) <= cursor < |w.stream|
    ensures p < w.stream[cursor].position
  {
    StartIndexSplits(w.stream, ReplayFrom(w, p), cursor);
  }

  lemma SameCoverage(w: World, first: nat, s: State, s': State)
    requires Covered(w, first, s)
    requires s'.log == s.log && s'.past == s.past && s'.start == s.start && s'.cursor == s.cursor
    requires Within(first, Resume(w, Loaded(s'.disk).position), s.cursor)
    ensures Covered(w, first, s')
  {
    hide Resume, Loaded, Furthest;
    forall i
      ensures Presented(s', i) == Presented(s, i)
    {
    }
  }

  lemma CoveredNow(w: World, first: nat, s: State)
    requires Covered(w, first, s)
    ensures Within(first, Resume(w, Loaded(s.disk).position), s.cursor)
    ensures forall k | 0 <= k < |s.log| :: Within(first, Resume(w, s.log[k].position), s.cursor)
    ensures s.cursor <= |w.stream|
  {
    hide Resume, Loaded, Furthest, Presented;
  }

  lemma StoreKeeps(w: World, first: nat, s: State, accepted: bool, now: int64)
    requires Remembers(s) && Rising(s) && Covered(w, first, s) && s.stored < 4
    ensures Rising(ReceiveStep(w, s, accepted, now)) && Covered(w, first, ReceiveStep(w, s, accepted, now))
  {
    hide Covered, Resume, Loaded;
    CoveredNow(w, first, s);
    SameCoverage(w, first, s, ReceiveStep(w, s, accepted, now));
    assert Field(s.memory, 1) == Field(s.log[Current(s, 1)], 1);
  }

  lemma ReceiveCovered(w: World, first: nat, s: State, accepted: bool, now: int64)
    requires Ascending(w.stream) && Covered(w, first, s) && s.stored == 4
    ensures Covered(w, first, ReceiveStep(w, s, accepted, now))
  {
    hide Resume, Loaded;
    var s' := ReceiveStep(w, s, accepted, now);
    if s.cursor < |w.stream| {
      ResumeAfter(w, s.cursor);
      FurthestNext(s.past, s.cursor);
      hide Furthest;
      forall i: nat
        ensures Presented(s', i) <==> Presented(s, i) || i == s.cursor
      {
      }
    }
  }

  lemma {:induction false} FurthestNext(past: seq<Span>, cursor: nat)
    ensures Furthest(past, cursor + 1) == if Furthest(past, cursor) == cursor then cursor + 1 else Furthest(past, cursor)
    decreases |past|
  {
    if past != [] {
      var end := past[|past| - 1].end;
      if end <= cursor {
        FurthestNext(past[..|past| - 1], cursor);
      } else {
        assert Furthest(past, cursor + 1) == Furthest(past, cursor);
      }
    }
  }

  lemma PresentRising(w: World, s: State, accepted: bool, now: int64)
    requires Ascending(w.stream) && Rising(s) && s.stored == 4 && s.cursor <= |w.stream|
    requires Resume(w, s.log[|s.log| - 1].position) <= s.cursor
    ensures Rising(ReceiveStep(w, s, accepted, now))
  {
    hide Resume, Loaded, AsInt64;
    if s.cursor < |w.stream| {
      ResumedBelow(w, s.log[|s.log| - 1].position, s.cursor);
    }
  }

  lemma PresentKeeps(w: World, first: nat, s: State, accepted: bool, now: int64)
    requires Ascending(w.stream) && Rising(s) && Covered(w, first, s) && s.stored == 4
    ensures Rising(ReceiveStep(w, s, accepted, now)) && Covered(w, first, ReceiveStep(w, s, accepted, now))
  {
    hide Resume, Loaded, Covered, Rising, ReceiveStep;
    ReceiveCovered(w, first, s, accepted, now);
    CoveredNow(w, first, s);
    LogNotEmpty(s);
    PresentRising(w, s, accepted, now);
  }

  lemma LogNotEmpty(s: State)
    requires Rising(s)
    ensures s.log != []
  {
    hide Loaded;
  }

  lemma ReadingRising(s: State, ok: bool, chunk: nat)
    requires Rising(s) && Snapped(s) && (s.flusher.Asleep? || s.flusher.Reading?)
    ensures Rising(FlushStep(s, ok, chunk))
  {
    hide Loaded, EncodeRecord;
    var s' := FlushStep(s, ok, chunk);
    assert s'.memory == s.memory && s'.log == s.log && s'.disk == s.disk;
  }

  lemma WritingRising(s: State, ok: bool, chunk: nat)
    requires Rising(s) && (s.flusher.Opening? || s.flusher.Writing?)
    ensures Rising(FlushStep(s, ok, chunk)) && Loaded(FlushStep(s, ok, chunk).disk) == Loaded(s.disk)
  {
    hide EncodeRecord, DecodeRecord;
    var s' := FlushStep(s, ok, chunk);
    assert s'.disk.main == s.disk.main && s'.memory == s.memory && s'.log == s.log && s'.persisted == s.persisted;
  }

  /** The rename puts a position in the file that is at least the one it replaces. */
  lemma RenamingRises(main: Option<seq<byte>>, s: State, ok: bool, chunk: nat)
    requires Rising(s) && Filed(main, s) && s.flusher.Renaming?
    ensures Rising(FlushStep(s, ok, chunk))
    ensures Loaded(s.disk).position <= Loaded(FlushStep(s, ok, chunk).disk).position
    ensures Loaded(FlushStep(s, ok, chunk).disk) == if ok then s.flusher.record else Loaded(s.disk)
  {
    hide EncodeRecord, DecodeRecord;
    var r := s.flusher.record;
    DecodeEncodeRecord(r, []);
    assert EncodeRecord(r) + [] == EncodeRecord(r);
    assert FieldsOf(r)[1] == r.position;
  }

  lemma FlushRising(main: Option<seq<byte>>, s: State, ok: bool, chunk: nat)
    requires Flushes(main, s) && Rising(s)
    ensures Rising(FlushStep(s, ok, chunk)) && Loaded(s.disk).position <= Loaded(FlushStep(s, ok, chunk).disk).position
    ensures Loaded(FlushStep(s, ok, chunk).disk)
            == if s.flusher.Renaming? && ok then s.flusher.record else Loaded(s.disk)
  {
    hide Loaded, EncodeRecord, Rising, Snapped, Filed, Remembers;
    if s.flusher.Renaming? {
      RenamingRises(main, s, ok, chunk);
    } else if s.flusher.Opening? || s.flusher.Writing? {
      WritingRising(s, ok, chunk);
    } else {
      ReadingRising(s, ok, chunk);
    }
  }

  lemma FlushKeeps(w: World, main: Option<seq<byte>>, first: nat, s: State, ok: bool, chunk: nat)
    requires Flushes(main, s) && Rising(s) && Covered(w, first, s)
    ensures Rising(FlushStep(s, ok, chunk)) && Covered(w, first, FlushStep(s, ok, chunk))
  {
    hide Resume, Loaded, EncodeRecord, Rising, Covered, Filed, Remembers;
    FlushRising(main, s, ok, chunk);
    CoveredNow(w, first, s);
    if s.flusher.Renaming? {
      assert FieldsOf(s.flusher.record)[1] == s.flusher.record.position == s.log[s.flusher.from[1]].position;
    }
    SameCoverage(w, first, s, FlushStep(s, ok, chunk));
  }

  lemma CrashCovered(w: World, first: nat, s: State)
    requires Covered(w, first, s)
    ensures Covered(w, first, Step(w, s, Crash))
  {
    hide Resume, Loaded, Presented;
    var s' := Step(w, s, Crash);
    FurthestCrash(s.past, Span(s.start, s.cursor), s'.cursor);
    forall i: nat
      ensures Presented(s', i) <==> Presented(s, i)
    {
      PresentedBefore(s, s', i);
    }
  }

  lemma CrashRising(w: World, s: State)
    requires Rising(s)
    ensures Rising(Step(w, s, Crash))
  {
    hide Resume, Loaded, EncodeRecord;
  }

  lemma PresentedBefore(s: State, s': State, i: nat)
    requires s'.past == s.past + [Span(s.start, s.cursor)] && s'.start == s'.cursor
    ensures Presented(s', i) <==> Presented(s, i)
  {
    if Presented(s, i) {
      if s.start <= i < s.cursor {
        assert s'.past[|s.past|].start <= i < s'.past[|s.past|].end;
      } else {
        var k :| 0 <= k < |s.past| && s.past[k].start <= i < s.past[k].end;
        assert s'.past[k] == s.past[k];
      }
    }
  }

  lemma FurthestCrash(past: seq<Span>, last: Span, cursor: nat)
    requires cursor <= last.end
    ensures Furthest(past + [last], cursor) == Furthest(past, last.end)
  {
    assert (past + [last])[..|past|] == past;
  }

  lemma StepKeeps(w: World, disk: Disk, s: State, a: Action)
    requires Ascending(w.stream) && Inv(w, disk, s)
    ensures Inv(w, disk, Step(w, s, a))
  {
    hide Snapped, Filed, Rising, Covered, ReceiveStep, FlushStep, Resume, Loaded;
    var first := Resume(w, Loaded(disk).position);
    StepFlushes(w, disk.main, s, a);
    match a {
      case Receive(accepted, now) =>
        if s.stored < 4 {
          StoreKeeps(w, first, s, accepted, now);
        } else {
          PresentKeeps(w, first, s, accepted, now);
        }
      case Flush(ok, chunk) => FlushKeeps(w, disk.main, first, s, ok, chunk);
      case Crash =>
        CrashRising(w, s);
        CrashCovered(w, first, s);
    }
  }

  lemma {:induction false} RunKeeps(w: World, disk: Disk, schedule: seq<Action>)
    requires Ascending(w.stream)
    ensures Inv(w, disk, Run(w, disk, schedule))
    decreases |schedule|
  {
    hide Step, Resume, Loaded, EncodeRecord;
    if schedule != [] {
      RunKeeps(w, disk, schedule[..|schedule| - 1]);
      StepKeeps(w, disk, Run(w, disk, schedule[..|schedule| - 1]), schedule[|schedule| - 1]);
    }
  }

  // ----- undisturbed calls -----

  /** n steps of the flusher alone, all its file operations succeeding. */
  function FlushAlone(s: State, n: nat): State {
    if n == 0 then s else FlushStep(FlushAlone(s, n - 1), true, RECORD_SIZE)
  }

  predicate HasData(r: Record) {
    !(r.sequence == 0 && r.position == 0 && r.count == 0)
  }

  lemma FlushMore(s: State, n: nat)
    ensures FlushAlone(s, n + 1) == FlushStep(FlushAlone(s, n), true, RECORD_SIZE)
  {
  }

  lemma Wakes(s: State)
    requires s.flusher.Asleep?
    ensures FlushAlone(s, 1) == s.(flusher := Reading([], []))
  {
    assert FlushAlone(s, 0) == s;
  }

  lemma ReadNext(s: State, got: seq<int64>, from: seq<nat>)
    requires |got| == |from| < 3
    ensures FlushStep(s.(flusher := Reading(got, from)), true, RECORD_SIZE)
            == s.(flusher := Reading(got + [Field(s.memory, |got|)], from + [Source(s, |got|)]))
  {
    hide EncodeRecord, Field;
  }

  lemma ReadLast(s: State, from: seq<nat>)
    requires HasData(s.memory) && |from| == 3
    ensures FlushStep(s.(flusher := Reading([s.memory.sequence, s.memory.position, s.memory.count], from)), true, RECORD_SIZE)
            == s.(flusher := Opening(s.memory, from + [Source(s, 3)]))
  {
    hide EncodeRecord;
  }

  lemma ReadSome(s: State)
    requires s.flusher.Asleep?
    ensures FlushAlone(s, 4)
            == s.(flusher := Reading([s.memory.sequence, s.memory.position, s.memory.count], [Source(s, 0), Source(s, 1), Source(s, 2)]))
  {
    hide FlushStep, FlushAlone, Source;
    var m := s.memory;
    Wakes(s);
    FlushMore(s, 1);
    ReadNext(s, [], []);
    assert [] + [m.sequence] == [m.sequence] && [] + [Source(s, 0)] == [Source(s, 0)];
    assert FlushAlone(s, 2) == s.(flusher := Reading([m.sequence], [Source(s, 0)]));
    FlushMore(s, 2);
    ReadNext(s, [m.sequence], [Source(s, 0)]);
    assert [m.sequence] + [m.position] == [m.sequence, m.position];
    assert [Source(s, 0)] + [Source(s, 1)] == [Source(s, 0), Source(s, 1)];
    assert FlushAlone(s, 3) == s.(flusher := Reading([m.sequence, m.position], [Source(s, 0), Source(s, 1)]));
    FlushMore(s, 3);
    ReadNext(s, [m.sequence, m.position], [Source(s, 0), Source(s, 1)]);
    assert [m.sequence, m.position] + [m.count] == [m.sequence, m.position, m.count];
    assert [Source(s, 0), Source(s, 1)] + [Source(s, 2)] == [Source(s, 0), Source(s, 1), Source(s, 2)];
  }

  /** Five steps take the memory as it is, each field with the update it came from. */
  lemma ReadAlone(s: State)
    requires s.flusher.Asleep? && HasData(s.memory)
    ensures FlushAlone(s, 5) == s.(flusher := Opening(s.memory, [Source(s, 0), Source(s, 1), Source(s, 2), Source(s, 3)]))
  {
    hide FlushStep, FlushAlone, Source;
    ReadSome(s);
    FlushMore(s, 4);
    ReadLast(s, [Source(s, 0), Source(s, 1), Source(s, 2)]);
  }

  /** Eight steps are CheckpointManager.Flush: the file becomes the record in memory. */
  lemma {:induction false} FlushesWholeRecord(s: State)
    requires s.flusher.Asleep? && HasData(s.memory)
    ensures FlushAlone(s, 8)
            == s.(disk := Disk(Some(EncodeRecord(s.memory)), None), persisted := s.persisted + [s.memory])
  {
    hide EncodeRecord;
    ReadAlone(s);
    var s5 := FlushAlone(s, 5);
    var s6 := FlushAlone(s, 6);
    assert s6 == s.(flusher := Writing(s.memory, s5.flusher.from, 0), disk := s.disk.(temp := Some([])));
    var image := EncodeRecord(s.memory);
    assert image[..RECORD_SIZE] == image;
    var s7 := FlushAlone(s, 7);
    assert s7 == s.(flusher := Renaming(s.memory, s5.flusher.from), disk := s.disk.(temp := Some(image)));
  }

  /** n steps of the subscriber alone. */
  function ReceiveAlone(w: World, s: State, accepted: bool, now: int64, n: nat): State {
    if n == 0 then s else ReceiveStep(w, ReceiveAlone(w, s, accepted, now, n - 1), accepted, now)
  }

  /** A presented message and four stores are CheckpointManager.Update: the memory becomes its record. */
  lemma {:induction false} UpdatesWholeRecord(w: World, s: State, now: int64)
    requires s.stored == 4 && s.cursor < |w.stream|
    ensures var m := w.stream[s.cursor];
            var s' := ReceiveAlone(w, s, true, now, 5);
            && s'.memory == Record(m.number, m.position, AsInt64(s.received + 1), now)
            && s'.stored == 4 && s'.cursor == s.cursor + 1
  {
    hide AsInt64;
    var m := w.stream[s.cursor];
    var r := Record(m.number, m.position, AsInt64(s.received + 1), now);
    assert ReceiveAlone(w, s, true, now, 0) == s;
    var s1 := ReceiveAlone(w, s, true, now, 1);
    assert s1.log == s.log + [r] && s1.stored == 0;
    var s2 := ReceiveAlone(w, s, true, now, 2);
    assert s2 == s1.(memory := s1.memory.(sequence := r.sequence), stored := 1);
    var s3 := ReceiveAlone(w, s, true, now, 3);
    assert s3 == s1.(memory := s2.memory.(position := r.position), stored := 2);
    var s4 := ReceiveAlone(w, s, true, now, 4);
    assert s4 == s1.(memory := s3.memory.(count := r.count), stored := 3);
  }

  // ----- what a reader of the file may rely on -----

  /** The log is the loaded record followed by one update for each accepted message of this process. */
  ghost predicate Logged(w: World, s: State) {
    && |s.log| == |s.accepted| + 1 && s.received == |s.accepted| && s.start <= s.cursor <= |w.stream|
    && (forall k | 0 <= k < |s.accepted| :: s.start <= s.accepted[k] < s.cursor)
    && (forall j, k | 0 <= j < k < |s.accepted| :: s.accepted[j] < s.accepted[k])
    && forall k | 0 <= k < |s.accepted| :: UpdateFor(s.log[k + 1], w.stream[s.accepted[k]], k + 1)
  }

  predicate UpdateFor(r: Record, m: Message, count: nat) {
    r.sequence == m.number && r.position == m.position && r.count == AsInt64(count)
  }

  lemma StepLogged(w: World, s: State, a: Action)
    requires Logged(w, s)
    ensures Logged(w, Step(w, s, a))
  {
    hide EncodeRecord, Resume, Loaded, AsInt64, FlushStep, ReceiveStep;
    match a {
      case Receive(accepted, now) => ReceiveLogged(w, s, accepted, now);
      case Flush(ok, chunk) => FlushLogged(w, s, ok, chunk);
      case Crash =>
    }
  }

  lemma ReceiveLogged(w: World, s: State, accepted: bool, now: int64)
    requires Logged(w, s)
    ensures Logged(w, ReceiveStep(w, s, accepted, now))
  {
    hide AsInt64;
    var s' := ReceiveStep(w, s, accepted, now);
    forall k | 0 <= k < |s'.accepted|
      ensures UpdateFor(s'.log[k + 1], w.stream[s'.accepted[k]], k + 1)
    {
      if k < |s.accepted| {
        assert s'.log[k + 1] == s.log[k + 1] && s'.accepted[k] == s.accepted[k];
      }
    }
  }

  lemma FlushLogged(w: World, s: State, ok: bool, chunk: nat)
    requires Logged(w, s)
    ensures Logged(w, FlushStep(s, ok, chunk))
  {
    hide EncodeRecord, UpdateFor;
    var s' := FlushStep(s, ok, chunk);
    assert s'.log == s.log && s'.accepted == s.accepted;
  }

  lemma {:induction false} RunLogged(w: World, disk: Disk, schedule: seq<Action>)
    ensures Logged(w, Run(w, disk, schedule))
    decreases |schedule|
  {
    hide Step, Resume, Loaded;
    if schedule != [] {
      RunLogged(w, disk, schedule[..|schedule| - 1]);
      StepLogged(w, Run(w, disk, schedule[..|schedule| - 1]), schedule[|schedule| - 1]);
    }
  }

  /**
   A crash may fall anywhere: the checkpoint file is always what it was before the first flush, or one
   complete record, the last one persisted, which load recovers.
   */
  lemma {:induction false} CrashSafe(w: World, disk: Disk, schedule: seq<Action>)
    ensures var s := Run(w, disk, schedule);
            if s.persisted == [] then s.disk.main == disk.main
            else var r := s.persisted[|s.persisted| - 1];
                 s.disk.main == Some(EncodeRecord(r)) && Stored(s.disk) == Some(r)
  {
    hide EncodeRecord, DecodeRecord, Remembers, Snapped;
    RunFlushes(w, disk, schedule);
    var s := Run(w, disk, schedule);
    if s.persisted != [] {
      var r := s.persisted[|s.persisted| - 1];
      DecodeEncodeRecord(r, []);
      assert EncodeRecord(r) + [] == EncodeRecord(r);
    }
  }

  /**
   A record on its way to the file mixes fields of the loaded record and of later updates, but a field
   read later is never more than one update behind a field read earlier.
   */
  lemma {:induction false} SnapshotSkew(w: World, disk: Disk, schedule: seq<Action>)
    requires var f := Run(w, disk, schedule).flusher; f.Opening? || f.Writing? || f.Renaming?
    ensures var s := Run(w, disk, schedule);
            var r, from := s.flusher.record, s.flusher.from;
            && |from| == 4
            && (forall k | 0 <= k < 4 :: from[k] < |s.log|)
            && r == Record(s.log[from[0]].sequence, s.log[from[1]].position, s.log[from[2]].count, s.log[from[3]].timestamp)
            && (forall i, j | 0 <= i < j < 4 :: from[j] + 1 >= from[i])
  {
    hide EncodeRecord, Remembers, Filed;
    RunFlushes(w, disk, schedule);
    var s := Run(w, disk, schedule);
    var r, from := s.flusher.record, s.flusher.from;
    assert FieldsOf(r)[0] == r.sequence && FieldsOf(r)[1] == r.position && FieldsOf(r)[2] == r.count && FieldsOf(r)[3] == r.timestamp;
  }

  /** The file's position, where a restart would start from. */
  ghost predicate PositionLogged(s: State) {
    exists k | 0 <= k < |s.log| :: s.log[k].position == Loaded(s.disk).position
  }

  lemma StepPositionLogged(w: World, main: Option<seq<byte>>, s: State, a: Action)
    requires Flushes(main, s) && PositionLogged(s)
    ensures PositionLogged(Step(w, s, a))
  {
    hide Loaded, Filed, Remembers, EncodeRecord, Resume, AsInt64;
    var s' := Step(w, s, a);
    if a.Flush? && s.flusher.Renaming? {
      RenamedPosition(main, s, a.ok, a.chunk);
      assert FieldsOf(s.flusher.record)[1] == s.flusher.record.position == s.log[s.flusher.from[1]].position;
      assert s'.log == s.log;
    } else if a.Crash? {
      assert s'.log[0] == Loaded(s'.disk);
    } else {
      var k :| 0 <= k < |s.log| && s.log[k].position == Loaded(s.disk).position;
      SameMain(s, s');
      assert s'.log[k] == s.log[k];
    }
  }

  lemma SameMain(s: State, s': State)
    requires s'.disk.main == s.disk.main
    ensures Loaded(s'.disk) == Loaded(s.disk)
  {
  }

  lemma RenamedPosition(main: Option<seq<byte>>, s: State, ok: bool, chunk: nat)
    requires Filed(main, s) && s.flusher.Renaming?
    ensures Loaded(FlushStep(s, ok, chunk).disk) == if ok then s.flusher.record else Loaded(s.disk)
  {
    hide EncodeRecord, DecodeRecord;
    DecodeEncodeRecord(s.flusher.record, []);
    assert EncodeRecord(s.flusher.record) + [] == EncodeRecord(s.flusher.record);
  }

  /** It is always that of the record this process loaded or of an update it has made since. */
  lemma {:induction false} RunPositionLogged(w: World, disk: Disk, schedule: seq<Action>)
    ensures PositionLogged(Run(w, disk, schedule))
    decreases |schedule|
  {
    hide Step, Resume, Loaded, Flushes;
    if schedule == [] {
      assert Run(w, disk, schedule).log[0] == Loaded(disk);
    } else {
      RunPositionLogged(w, disk, schedule[..|schedule| - 1]);
      RunFlushes(w, disk, schedule[..|schedule| - 1]);
      StepPositionLogged(w, disk.main, Run(w, disk, schedule[..|schedule| - 1]), schedule[|schedule| - 1]);
    }
  }

  /**
   When a snapshot is whole: in every reachable state, an undisturbed read takes all four fields from one
   update exactly when no update is half stored. The record is then that update's.
   */
  lemma {:induction false} WholeSnapshotIff(w: World, disk: Disk, schedule: seq<Action>)
    requires var s := Run(w, disk, schedule); s.flusher.Asleep? && HasData(s.memory)
    ensures var s := Run(w, disk, schedule);
            var f := FlushAlone(s, 5).flusher;
            && f.Opening? && |f.from| == 4 && (forall k | 0 <= k < 4 :: f.from[k] < |s.log|)
            && (f.from[0] == f.from[1] == f.from[2] == f.from[3] <==> s.stored == 0 || s.stored == 4)
            && (s.stored == 0 || s.stored == 4 ==> f.record == s.log[f.from[0]])
  {
    hide EncodeRecord, Snapped, Filed, Run, FlushAlone;
    RunFlushes(w, disk, schedule);
    var s := Run(w, disk, schedule);
    ReadAlone(s);
    assert Field(s.memory, 0) == Field(s.log[Current(s, 0)], 0) && Field(s.memory, 1) == Field(s.log[Current(s, 1)], 1);
    assert Field(s.memory, 2) == Field(s.log[Current(s, 2)], 2) && Field(s.memory, 3) == Field(s.log[Current(s, 3)], 3);
  }

  lemma RunSnoc(w: World, disk: Disk, schedule: seq<Action>, a: Action)
    ensures Run(w, disk, schedule + [a]) == Step(w, Run(w, disk, schedule), a)
  {
    hide Step;
    assert (schedule + [a])[..|schedule|] == schedule;
  }

  lemma {:induction false} RunFlushing(w: World, disk: Disk, schedule: seq<Action>, n: nat)
    ensures Run(w, disk, schedule + seq(n, _ => Flush(true, RECORD_SIZE))) == FlushAlone(Run(w, disk, schedule), n)
  {
    hide Run, FlushStep;
    var flushes := seq(n, _ => Flush(true, RECORD_SIZE));
    if n == 0 {
      assert schedule + flushes == schedule;
    } else {
      var fewer := seq(n - 1, _ => Flush(true, RECORD_SIZE));
      RunFlushing(w, disk, schedule, n - 1);
      RunSnoc(w, disk, schedule + fewer, Flush(true, RECORD_SIZE));
      assert schedule + flushes == schedule + fewer + [Flush(true, RECORD_SIZE)];
    }
  }

  /**
   A run that tears one: the first message, number 7 at position 1, is presented and its number stored;
   the flusher then reads a record with that number, no position and no count, and would persist it.
   */
  lemma TornSnapshot()
    ensures var w := World([Message(7, 1)], 0);
            var schedule := [Receive(true, 0), Receive(true, 0)] + seq(5, _ => Flush(true, RECORD_SIZE));
            Run(w, Disk(None, None), schedule).flusher == Opening(Record(7, 0, 0, 0), [1, 0, 0, 0])
  {
    hide Run, FlushAlone, Step;
    var w := World([Message(7, 1)], 0);
    var disk := Disk(None, None);
    var a := Receive(true, 0);
    var s := State(Record(7, 0, 0, 0), disk, Asleep, 0, 1, 1, [NO_RECORD, Record(7, 1, AsInt64(1), 0)], 1, [0], [], []);
    NumberStored();
    assert [] + [a] == [a] && [a] + [a] == [a, a];
    RunSnoc(w, disk, [], a);
    RunSnoc(w, disk, [a], a);
    RunFlushing(w, disk, [a, a], 5);
    ReadAlone(s);
  }

  lemma NumberStored()
    ensures var w := World([Message(7, 1)], 0);
            var a := Receive(true, 0);
            Step(w, Step(w, Run(w, Disk(None, None), []), a), a)
            == State(Record(7, 0, 0, 0), Disk(None, None), Asleep, 0, 1, 1, [NO_RECORD, Record(7, 1, AsInt64(1), 0)], 1, [0], [], [])
  {
    hide AsInt64;
    var w := World([Message(7, 1)], 0);
    var s := Run(w, Disk(None, None), []);
    assert s == State(NO_RECORD, Disk(None, None), Asleep, 0, 0, 0, [NO_RECORD], 4, [], [], []);
    assert ReceiveStep(w, s, true, 0).log == [NO_RECORD, Record(7, 1, AsInt64(1), 0)];
  }

  lemma StepRises(w: World, disk: Disk, s: State, a: Action)
    requires Inv(w, disk, s)
    ensures Loaded(s.disk).position <= Loaded(Step(w, s, a).disk).position
  {
    hide Covered, Flushes, Loaded, FlushStep, EncodeRecord;
    if a.Flush? {
      FlushRising(disk.main, s, a.ok, a.chunk);
    }
  }

  /** The position a restart would find never decreases, across any number of crashes. */
  lemma {:induction false} PersistedPositionsRise(w: World, disk: Disk, schedule: seq<Action>, more: seq<Action>)
    requires Ascending(w.stream)
    ensures Loaded(Run(w, disk, schedule).disk).position <= Loaded(Run(w, disk, schedule + more).disk).position
    decreases |more|
  {
    hide Inv, Step, Loaded;
    if more == [] {
      assert schedule + more == schedule;
    } else {
      var whole := schedule + more;
      var init := more[..|more| - 1];
      assert whole[..|whole| - 1] == schedule + init;
      PersistedPositionsRise(w, disk, schedule, init);
      RunKeeps(w, disk, schedule + init);
      StepRises(w, disk, Run(w, disk, schedule + init), more[|more| - 1]);
    }
  }

  /**
   Restart coverage: after any number of crashes and replay-auto restarts the messages presented to the
   fast path are exactly those from the first start on up to the furthest point any process reached.
   */
  lemma {:induction false} RestartCoverage(w: World, disk: Disk, schedule: seq<Action>, i: nat)
    requires Ascending(w.stream)
    ensures var s := Run(w, disk, schedule);
            Presented(s, i) <==> Resume(w, Loaded(disk).position) <= i < Furthest(s.past, s.cursor)
  {
    hide Flushes, Rising, Presented, Furthest, Resume, Loaded;
    RunKeeps(w, disk, schedule);
  }

  /**
   The overlap at a restart: the new process starts no later than the old one stopped, and presents
   again exactly the messages past the position it starts from.
   */
  lemma {:induction false} RestartOverlap(w: World, disk: Disk, schedule: seq<Action>, i: nat)
    requires Ascending(w.stream) && i < |w.stream|
    ensures var s := Run(w, disk, schedule);
            var s' := Step(w, s, Crash);
            && s'.start <= s.cursor
            && (s'.start <= i < s.cursor <==> ReplayFrom(w, Loaded(s.disk).position) < w.stream[i].position && i < s.cursor)
  {
    hide Flushes, Rising, Presented, Furthest, Loaded;
    RunKeeps(w, disk, schedule);
    StartIndexSplits(w.stream, ReplayFrom(w, Loaded(Run(w, disk, schedule).disk).position), i);
  }

  /** Message i is presented by a process that starts past position p, and only then. */
  ghost predicate StartsPast(s: State, stream: seq<Message>, p: int, i: nat)
    requires i < |stream|
  {
    s.start <= i <==> stream[i].position > p
  }

  /** The restart rule of replay-auto mode, for message i of the stream. */
  ghost predicate StartsByRule(w: World, disk: Disk, s: State, i: nat)
    requires i < |w.stream|
  {
    match Stored(disk)
    case None => StartsPast(s, w.stream, w.cliPosition, i) && s.memory == Record(0, 0, 0, 0)
    case Some(r) => StartsPast(s, w.stream, if r.position > 0 then r.position else w.cliPosition, i) && s.memory == r
  }

  lemma BootStarts(w: World, disk: Disk, past: seq<Span>, persisted: seq<Record>, i: nat)
    requires Ascending(w.stream) && i < |w.stream|
    ensures var s := Boot(w, disk, past, persisted);
            s.start == s.cursor && StartsByRule(w, disk, s, i)
  {
    hide DecodeRecord;
    StartIndexSplits(w.stream, ReplayFrom(w, Loaded(disk).position), i);
  }

  /**
   A process that finds no readable checkpoint, or one whose position is not positive, presents exactly
   the messages past the command line's position; any other, those past the stored one. This is so of
   the first process and of one that follows a crash anywhere in a run.
   */
  lemma {:induction false} RestartStarts(w: World, disk: Disk, schedule: seq<Action>, i: nat)
    requires Ascending(w.stream) && i < |w.stream|
    ensures var s := Run(w, disk, []);
            s.start == s.cursor && s.disk == disk && StartsByRule(w, disk, s, i)
    ensures var left := Run(w, disk, schedule).disk;
            var s := Run(w, disk, schedule + [Crash]);
            s.start == s.cursor && s.disk == left && StartsByRule(w, left, s, i)
  {
    hide StartsByRule, Resume, Loaded;
    BootStarts(w, disk, [], [], i);
    var s := Run(w, disk, schedule);
    RunSnoc(w, disk, schedule, Crash);
    BootStarts(w, s.disk, s.past + [Span(s.start, s.cursor)], s.persisted, i);
  }

  /** Messages the fast path drops move the reading position and nothing else. */
  lemma {:induction false} DroppedLeaveNoTrace(w: World, s: State, now: int64, n: nat)
    requires s.stored == 4 && s.cursor + n <= |w.stream|
    ensures ReceiveAlone(w, s, false, now, n) == s.(cursor := s.cursor + n)
  {
    hide AsInt64;
    if n > 0 {
      DroppedLeaveNoTrace(w, s, now, n - 1);
    }
  }

  /** With nothing to store the flusher reads, finds three zeros and goes back to sleep. */
  lemma {:induction false} IdleFlush(s: State)
    requires s.flusher.Asleep? && !HasData(s.memory)
    ensures FlushAlone(s, 5) == s
  {
    hide FlushStep, FlushAlone, Source;
    ReadSome(s);
    FlushMore(s, 4);
    ReadZeros(s, [Source(s, 0), Source(s, 1), Source(s, 2)]);
  }

  lemma ReadZeros(s: State, from: seq<nat>)
    requires s.flusher.Asleep? && !HasData(s.memory) && |from| == 3
    ensures FlushStep(s.(flusher := Reading([s.memory.sequence, s.memory.position, s.memory.count], from)), true, RECORD_SIZE) == s
  {
    hide EncodeRecord;
  }

  /** A file operation that fails ends the flush: whatever it left beside it, the checkpoint file is as before. */
  lemma FailedFlush(s: State, chunk: nat)
    requires !s.flusher.Asleep? && !s.flusher.Reading?
    ensures var s' := FlushStep(s, false, chunk);
            s'.flusher.Asleep? && s'.disk.main == s.disk.main && s' == s.(flusher := Asleep, disk := s'.disk)
  {
    hide EncodeRecord;
  }

  /** Furthest is the largest of the points the processes reached. */
  lemma {:induction false} FurthestIsMax(past: seq<Span>, cursor: nat)
    ensures (forall k | 0 <= k < |past| :: past[k].end <= Furthest(past, cursor)) && cursor <= Furthest(past, cursor)
    ensures Furthest(past, cursor) == cursor || exists k | 0 <= k < |past| :: past[k].end == Furthest(past, cursor)
    decreases |past|
  {
    if past != [] {
      var last := past[|past| - 1];
      FurthestIsMax(past[..|past| - 1], if last.end > cursor then last.end else cursor);
    }
  }
}

/**
 AeronPublisher.cpp: the publish loop, which stamps a header, fills in the checksum and offers the
 frame; and what a subscriber makes of the frames that were taken.
 */
module Publishers {
  import opened Bytes
  import opened MessageFrame
  import Crc32
  import Text
  import Tracking

  function Ascii(s: string): (bytes: seq<byte>)
    ensures |bytes| == |s|
  {
    seq(|s|, i requires 0 <= i < |s| => (s[i] as int) % 256)
  }

  function PayloadText(n: nat): seq<byte> {
    Ascii("Test message " + Text.Show(n) + " from Publisher")
  }

  /** The payload is that text in ASCII, no character of it cut. */
  lemma PayloadBytes(n: nat, i: nat)
    requires i < |PayloadText(n)|
    ensures var text := "Test message " + Text.Show(n) + " from Publisher";
            |PayloadText(n)| == |text| && PayloadText(n)[i] == text[i] as int < 128
  {
    var front, back, digits := "Test message ", " from Publisher", Text.Show(n);
    PlainEnglish();
    var text := front + digits + back;
    if i < |front| {
      assert text[i] == front[i];
    } else if i < |front| + |digits| {
      assert text[i] == digits[i - |front|];
    } else {
      assert text[i] == back[i - |front| - |digits|];
    }
  }

  predicate InAscii(s: string) {
    forall i | 0 <= i < |s| :: s[i] as int < 128
  }

  lemma PlainEnglish()
    ensures InAscii("Test message ") && InAscii(" from Publisher")
  {
  }

  function Pow10(k: nat): (p: nat)
    ensures p > 0
  {
    if k == 0 then 1 else 10 * Pow10(k - 1)
  }

  lemma {:induction false} ShowLength(n: nat, k: nat)
    requires 0 < k && n < Pow10(k)
    ensures |Text.Show(n)| <= k
  {
    if n >= 10 {
      assert k > 1 by { assert Pow10(1) == 10 * Pow10(0); }
      ShowLength(n / 10, k - 1);
    }
  }

  /** The text always fits the 256 bytes set aside for it, so snprintf never cuts it short. */
  lemma PayloadFits(n: nat)
    requires n < TWO_TO_64
    ensures |PayloadText(n)| < 256
  {
    assert Pow10(5) == 100000;
    assert Pow10(10) == 10000000000;
    assert Pow10(15) == 1000000000000000;
    assert Pow10(20) == 100000000000000000000;
    ShowLength(n, 20);
    assert |"Test message "| == 13 && |" from Publisher"| == 15;
  }

  /** One turn of the publish loop: the two clock readings, and whether the transport takes the frame. */
  datatype Tick = Tick(eventTime: nat, publishTime: nat, taken: bool)

  function TakenCount(ticks: seq<Tick>): nat
    decreases |ticks|
  {
    if ticks == [] then 0 else TakenCount(ticks[..|ticks| - 1]) + if ticks[|ticks| - 1].taken then 1 else 0
  }

  /** The i-th frame of a loop started at a sequence number. */
  function FrameAt(start: nat, ticks: seq<Tick>, i: nat): seq<byte>
    requires i < |ticks|
  {
    var n := (start + i) % TWO_TO_64;
    Frame(n, ticks[i].eventTime, ticks[i].publishTime, PayloadText(n))
  }

  class AeronPublisher {
    const table: seq<Crc32.Word>
    var sequenceNumber: nat
    var messageCount: nat

    ghost predicate Valid()
      reads this
    {
      Crc32.IsTable(table) && sequenceNumber < TWO_TO_64
    }

    constructor (table: seq<Crc32.Word>)
      requires Crc32.IsTable(table)
      ensures Valid() && sequenceNumber == 0 && messageCount == 0
    {
      this.table := table;
      sequenceNumber, messageCount := 0, 0;
    }

    /** The number is used up whether or not the transport takes the frame. */
    method PublishNext(tick: Tick) returns (frame: seq<byte>)
      requires Valid()
      modifies this
      ensures Valid()
      ensures frame == Frame(old(sequenceNumber), tick.eventTime, tick.publishTime, PayloadText(old(sequenceNumber)))
      ensures sequenceNumber == (old(sequenceNumber) + 1) % TWO_TO_64
      ensures messageCount == old(messageCount) + if tick.taken then 1 else 0
    {
      hide Layout, Checksum, Crc32.Crc, Crc32.IsTable, PayloadText;
      // memset, then field by field
      var header := Fields([0, 0, 0, 0], 0, 0, 0, 0, 0, 0, 0, 0, 0, 0, 0, 0, 0);
      header := header.(magic := MAGIC);
      header := header.(version := 1);
      header := header.(messageType := MSG_TEST);
      var number := sequenceNumber;
      header := header.(sequenceNumber := number);
      sequenceNumber := (sequenceNumber + 1) % TWO_TO_64;
      header := header.(eventTime := tick.eventTime);
      header := header.(publishTime := tick.publishTime);
      header := header.(recvTime := 0);
      header := header.(publisherId := 1);
      header := header.(priority := 128);
      header := header.(flags := 0);
      header := header.(sessionId := 1);
      header := header.(checksum := 0);
      header := header.(reserved := 0);
      var payload := PayloadText((sequenceNumber - 1) % TWO_TO_64);
      header := header.(messageLength := HEADER_SIZE + |payload|);
      header := header.(flags := FLAG_CHECKSUM_ENABLED);
      var crc := CalculateMessageCrc32(table, Layout(header), payload);
      header := header.(checksum := FromBits(crc));
      assert (sequenceNumber - 1) % TWO_TO_64 == number;
      frame := Layout(header) + payload;
      SumOf(Layout(header.(checksum := 0)), payload);
      if tick.taken {
        messageCount := messageCount + 1;
      }
    }

    /** The loop: consecutive numbers, counted only when taken. */
    method Run(ticks: seq<Tick>) returns (frames: seq<seq<byte>>)
      requires Valid()
      modifies this
      ensures Valid() && |frames| == |ticks|
      ensures forall i | 0 <= i < |ticks| :: frames[i] == FrameAt(old(sequenceNumber), ticks, i)
      ensures sequenceNumber == (old(sequenceNumber) + |ticks|) % TWO_TO_64
      ensures messageCount == old(messageCount) + TakenCount(ticks)
    {
      hide Frame, PayloadText, Crc32.IsTable;
      frames := [];
      while |frames| < |ticks|
        invariant Valid() && |frames| <= |ticks|
        invariant forall i | 0 <= i < |frames| :: frames[i] == FrameAt(old(sequenceNumber), ticks, i)
        invariant sequenceNumber == (old(sequenceNumber) + |frames|) % TWO_TO_64
        invariant messageCount == old(messageCount) + TakenCount(ticks[..|frames|])
      {
        var k := |frames|;
        assert ticks[..k + 1][..k] == ticks[..k];
        NextNumber(old(sequenceNumber), k);
        var frame := PublishNext(ticks[k]);
        frames := frames + [frame];
      }
      assert ticks[..|ticks|] == ticks;
    }
  }

  lemma NextNumber(start: nat, k: nat)
    ensures ((start + k) % TWO_TO_64 + 1) % TWO_TO_64 == (start + (k + 1)) % TWO_TO_64
  {
  }

  lemma SumOf(header: Header, payload: seq<byte>)
    ensures FromBits(Crc32.Crc(Covered(Content(header, payload)))) == Checksum(Content(header, payload))
  {
  }

  ghost predicate Timely(ticks: seq<Tick>) {
    forall t | t in ticks :: t.eventTime < TWO_TO_64 && t.publishTime < TWO_TO_64
  }

  /** Every frame of the loop is received byte for byte, validates, and carries its place as its number. */
  lemma {:induction false} FramesArrive(ticks: seq<Tick>, i: nat)
    requires Timely(ticks) && i < |ticks| && i < TWO_TO_63
    ensures var c := FromAeron(FrameAt(0, ticks, i));
            && c.header + c.payload == FrameAt(0, ticks, i)
            && IsValid(c) && c.payload == PayloadText(i) && MessageNumber(c) == i
  {
    hide Frame, PayloadText, IsValid, FromAeron, Parse, MessageNumber;
    PayloadFits(i);
    var tick := ticks[i];
    assert tick in ticks;
    PlainModulo(i);
    FrameRoundTrip(i, tick.eventTime, tick.publishTime, PayloadText(i));
    FrameNumber(i, tick.eventTime, tick.publishTime, PayloadText(i));
  }

  lemma PlainModulo(i: nat)
    requires i < TWO_TO_63
    ensures (0 + i) % TWO_TO_64 == i && ToSigned(i) == i
  {
  }

  /** What the subscriber's bookkeeping sees of the frames that were taken, none of them lost on the way. */
  function TakenArrivals(ticks: seq<Tick>): seq<Tracking.Arrival>
    decreases |ticks|
  {
    if ticks == [] then []
    else
      var k := |ticks| - 1;
      TakenArrivals(ticks[..k])
      + if ticks[k].taken then [Tracking.Arrival(MessageNumber(FromAeron(FrameAt(0, ticks, k))), true)] else []
  }

  lemma {:induction false} TakenAscend(cfg: Tracking.Config, ticks: seq<Tick>)
    requires Timely(ticks) && |ticks| <= TWO_TO_63
    ensures Tracking.Ascends(cfg, TakenArrivals(ticks)) && Tracking.NonNegative(TakenArrivals(ticks))
    ensures forall a | a in TakenArrivals(ticks) :: a.number < |ticks|
    ensures |TakenArrivals(ticks)| == TakenCount(ticks)
    decreases |ticks|
  {
    hide FromAeron, FrameAt, MessageNumber;
    if ticks != [] {
      var k := |ticks| - 1;
      var init := TakenArrivals(ticks[..k]);
      TakenAscend(cfg, ticks[..k]);
      FramesArrive(ticks, k);
      if ticks[k].taken {
        var a := Tracking.Arrival(k, true);
        assert TakenArrivals(ticks) == init + [a];
        assert (init + [a])[..|init|] == init;
      } else {
        assert TakenArrivals(ticks) == init;
      }
    }
  }

  // ----- the refused offers -----

  /** The place of the first tick taken, or the length. */
  function FirstTaken(ticks: seq<Tick>): (k: nat)
    ensures k <= |ticks| && (k < |ticks| ==> ticks[k].taken) && forall i | 0 <= i < k :: !ticks[i].taken
  {
    if ticks == [] || ticks[0].taken then 0 else 1 + FirstTaken(ticks[1..])
  }

  /** The place after the last tick taken, or 0. */
  function EndTaken(ticks: seq<Tick>): (k: nat)
    ensures k <= |ticks| && (k > 0 ==> ticks[k - 1].taken) && forall i | k <= i < |ticks| :: !ticks[i].taken
    decreases |ticks|
  {
    if ticks == [] || ticks[|ticks| - 1].taken then |ticks| else EndTaken(ticks[..|ticks| - 1])
  }

  function RefusedCount(ticks: seq<Tick>): nat
    decreases |ticks|
  {
    if ticks == [] then 0 else RefusedCount(ticks[..|ticks| - 1]) + if ticks[|ticks| - 1].taken then 0 else 1
  }

  /** The offers refused after one was taken and before another was. */
  function RefusedBetween(ticks: seq<Tick>): nat {
    var from, to := FirstTaken(ticks), EndTaken(ticks);
    if from < to then RefusedCount(ticks[from..to]) else 0
  }

  lemma {:induction false} CountsAddUp(ticks: seq<Tick>)
    ensures TakenCount(ticks) + RefusedCount(ticks) == |ticks|
    decreases |ticks|
  {
    if ticks != [] {
      CountsAddUp(ticks[..|ticks| - 1]);
    }
  }

  lemma {:induction false} NoneTaken(ticks: seq<Tick>)
    requires forall i | 0 <= i < |ticks| :: !ticks[i].taken
    ensures TakenCount(ticks) == 0 && TakenArrivals(ticks) == []
    decreases |ticks|
  {
    if ticks != [] {
      NoneTaken(ticks[..|ticks| - 1]);
    }
  }

  lemma {:induction false} TakenCountConcat(a: seq<Tick>, b: seq<Tick>)
    ensures TakenCount(a + b) == TakenCount(a) + TakenCount(b)
    decreases |b|
  {
    if b == [] {
      assert a + b == a;
    } else {
      assert (a + b)[..|a + b| - 1] == a + b[..|b| - 1];
      TakenCountConcat(a, b[..|b| - 1]);
    }
  }

  lemma TakenWithin(ticks: seq<Tick>)
    requires FirstTaken(ticks) < EndTaken(ticks)
    ensures TakenCount(ticks[FirstTaken(ticks)..EndTaken(ticks)]) == TakenCount(ticks)
  {
    hide TakenCount, TakenArrivals, FirstTaken, EndTaken;
    var from, to := FirstTaken(ticks), EndTaken(ticks);
    assert ticks == ticks[..from] + ticks[from..to] + ticks[to..];
    TakenCountConcat(ticks[..from] + ticks[from..to], ticks[to..]);
    TakenCountConcat(ticks[..from], ticks[from..to]);
    NoneTaken(ticks[..from]);
    NoneTaken(ticks[to..]);
  }

  lemma FirstTakenNext(ticks: seq<Tick>, k: nat)
    requires |ticks| == k + 1
    ensures FirstTaken(ticks) == if FirstTaken(ticks[..k]) < k || ticks[k].taken then FirstTaken(ticks[..k]) else k + 1
  {
    hide FirstTaken;
    var p, q := FirstTaken(ticks), FirstTaken(ticks[..k]);
    assert q < k ==> ticks[q].taken;
    assert p < k ==> ticks[..k][p].taken;
  }

  lemma EndTakenNext(ticks: seq<Tick>, k: nat)
    requires |ticks| == k + 1
    ensures EndTaken(ticks) == if ticks[k].taken then k + 1 else EndTaken(ticks[..k])
  {
  }

  lemma TakenArrivalsNext(ticks: seq<Tick>, k: nat)
    requires Timely(ticks) && |ticks| == k + 1 && k < TWO_TO_63
    ensures TakenArrivals(ticks) == TakenArrivals(ticks[..k]) + if ticks[k].taken then [Tracking.Arrival(k, true)] else []
  {
    hide FromAeron, FrameAt, MessageNumber;
    FramesArrive(ticks, k);
  }

  /** The numbers that arrive first and last are the places of the first and last tick taken. */
  lemma {:induction false} TakenEnds(ticks: seq<Tick>)
    requires Timely(ticks) && |ticks| <= TWO_TO_63
    ensures var arrivals := TakenArrivals(ticks);
            if arrivals == [] then FirstTaken(ticks) == |ticks| && EndTaken(ticks) == 0
            else arrivals[0].number == FirstTaken(ticks) < EndTaken(ticks)
                 && arrivals[|arrivals| - 1].number == EndTaken(ticks) - 1
    decreases |ticks|
  {
    hide TakenArrivals, FirstTaken, EndTaken;
    if ticks == [] {
      NoneTaken(ticks);
    } else {
      var k := |ticks| - 1;
      TakenEnds(ticks[..k]);
      TakenArrivalsNext(ticks, k);
      FirstTakenNext(ticks, k);
      EndTakenNext(ticks, k);
    }
  }

  /**
   The ledger of a whole run: for a subscriber that gets every taken frame, the numbers counted as
   recovered and those in gaps it skips are together exactly the offers refused between its first
   message and its last.
   */
  lemma {:induction false} RefusedOffersAreGaps(cfg: Tracking.Config, ticks: seq<Tick>)
    requires Timely(ticks) && |ticks| <= TWO_TO_63 && cfg.gapRecovery && cfg.tolerance >= 0
    ensures var arrivals := TakenArrivals(ticks);
            var start := Tracking.Start(cfg);
            var end := Tracking.After(cfg, start, arrivals);
            && end.duplicates == 0
            && end.gapsRecovered + Tracking.Skipped(cfg, start, arrivals) == RefusedBetween(ticks)
  {
    hide Tracking.OnArrival, Tracking.Ascends, Tracking.Orderly, Tracking.Disorder;
    var arrivals := TakenArrivals(ticks);
    TakenAscend(cfg, ticks);
    AllPass(cfg, ticks);
    TakenEnds(ticks);
    if arrivals != [] {
      Tracking.GapAccounting(cfg, arrivals);
      LastAccepted(cfg, ticks);
      TakenWithin(ticks);
      CountsAddUp(ticks[FirstTaken(ticks)..EndTaken(ticks)]);
    }
  }

  /** Every taken frame is accepted, so the last accepted number is the last that arrived. */
  lemma {:induction false} LastAccepted(cfg: Tracking.Config, ticks: seq<Tick>)
    requires Timely(ticks) && |ticks| <= TWO_TO_63 && TakenArrivals(ticks) != []
    ensures var accepted := Tracking.Accepted(cfg, Tracking.Start(cfg), TakenArrivals(ticks));
            var arrivals := TakenArrivals(ticks);
            accepted != [] && accepted[|accepted| - 1] == arrivals[|arrivals| - 1].number
    decreases |ticks|
  {
    hide FromAeron, FrameAt, MessageNumber, Tracking.After, Tracking.Accepted;
    var k := |ticks| - 1;
    FramesArrive(ticks, k);
    if ticks[k].taken {
      AllPass(cfg, ticks[..k]);
      NextPasses(cfg, TakenArrivals(ticks[..k]), k);
    } else {
      assert TakenArrivals(ticks) == TakenArrivals(ticks[..k]);
      LastAccepted(cfg, ticks[..k]);
    }
  }

  lemma {:induction false} AllPass(cfg: Tracking.Config, ticks: seq<Tick>)
    requires Timely(ticks) && |ticks| <= TWO_TO_63
    ensures var end := Tracking.After(cfg, Tracking.Start(cfg), TakenArrivals(ticks));
            end.duplicates == 0 && |Tracking.Accepted(cfg, Tracking.Start(cfg), TakenArrivals(ticks))| == TakenCount(ticks)
    ensures forall n | n in Tracking.Accepted(cfg, Tracking.Start(cfg), TakenArrivals(ticks)) :: n < |ticks|
    decreases |ticks|
  {
    hide FromAeron, FrameAt, MessageNumber, Tracking.OnArrival, Tracking.After, Tracking.Accepted;
    if ticks != [] {
      var k := |ticks| - 1;
      var init := TakenArrivals(ticks[..k]);
      AllPass(cfg, ticks[..k]);
      FramesArrive(ticks, k);
      if ticks[k].taken {
        assert TakenArrivals(ticks) == init + [Tracking.Arrival(k, true)];
        NextPasses(cfg, init, k);
      } else {
        assert TakenArrivals(ticks) == init;
      }
    } else {
      NothingTaken(cfg);
    }
  }

  lemma NothingTaken(cfg: Tracking.Config)
    ensures Tracking.After(cfg, Tracking.Start(cfg), []) == Tracking.Start(cfg)
    ensures Tracking.Accepted(cfg, Tracking.Start(cfg), []) == []
  {
  }

  lemma NextPasses(cfg: Tracking.Config, init: seq<Tracking.Arrival>, k: nat)
    requires forall n | n in Tracking.Accepted(cfg, Tracking.Start(cfg), init) :: n < k
    ensures var start := Tracking.Start(cfg);
            var longer := init + [Tracking.Arrival(k, true)];
            && Tracking.After(cfg, start, longer).duplicates == Tracking.After(cfg, start, init).duplicates
            && Tracking.Accepted(cfg, start, longer) == Tracking.Accepted(cfg, start, init) + [k]
  {
    hide Tracking.OnArrival, Tracking.After, Tracking.Accepted, Tracking.LastOf;
    var start := Tracking.Start(cfg);
    var a := Tracking.Arrival(k, true);
    Tracking.AfterSnoc(cfg, start, init, a);
    Tracking.RejectedIff(cfg, init, a);
    Tracking.LastIsPart(Tracking.Accepted(cfg, start, init), cfg.window);
    Tracking.RejectionCounts(cfg, Tracking.After(cfg, start, init), a);
  }

  /**
   The largest sequence number reads as -1, which a window that has not filled takes for a repeat: the
   first frame a subscriber ever gets is dropped.
   */
  lemma LargestNumberRejected(cfg: Tracking.Config, found: bool, eventTime: nat, publishTime: nat, payload: seq<byte>)
    requires cfg.duplicateCheck && cfg.window > 0
    requires eventTime < TWO_TO_64 && publishTime < TWO_TO_64 && |payload| <= MAX_PAYLOAD_SIZE
    ensures var number := MessageNumber(FromAeron(Frame(TWO_TO_64 - 1, eventTime, publishTime, payload)));
            number == -1 && !Tracking.OnArrival(cfg, Tracking.Start(cfg), Tracking.Arrival(number, found)).1
  {
    hide Frame, FromAeron, MessageNumber, Tracking.OnArrival, Tracking.LastOf;
    FrameNumber(TWO_TO_64 - 1, eventTime, publishTime, payload);
    NothingTaken(cfg);
    Tracking.RejectedIff(cfg, [], Tracking.Arrival(-1, found));
  }
}

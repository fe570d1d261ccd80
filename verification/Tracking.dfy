/**
 The subscriber's bookkeeping on message numbers (AeronSubscriber.cpp): the expected next number, the
 gap counters and the fixed-size ring of recently accepted numbers.
 */
module Tracking {
  import opened Bytes

  datatype Config = Config(gapRecovery: bool, tolerance: int, duplicateCheck: bool, window: nat)

  datatype Tracker = Tracker(
    expected: int, ring: seq<int>, position: nat,
    gapsDetected: nat, gapsRecovered: int, duplicates: nat)

  /** A message number as it arrives, and whether the archive would find a recording for it. */
  datatype Arrival = Arrival(number: int, found: bool)

  /** What the ring holds where no number has been accepted yet. */
  const UNUSED: int := -1

  function Start(cfg: Config): Tracker {
    Tracker(0, if cfg.duplicateCheck then seq(cfg.window, _ => UNUSED) else [], 0, 0, 0, 0)
  }

  predicate Sound(t: Tracker) {
    |t.ring| > 0 ==> t.position < |t.ring|
  }

  /** checkForGaps: whether the gap before n is small enough to recover at once. */
  function CheckForGaps(cfg: Config, t: Tracker, n: int): (Tracker, bool) {
    if t.expected == 0 then (t.(expected := n + 1), false)
    else (t, n > t.expected && n - t.expected <= cfg.tolerance)
  }

  function CountGap(cfg: Config, t: Tracker, a: Arrival): Tracker {
    if !cfg.gapRecovery then t
    else
      var (t', gap) := CheckForGaps(cfg, t, a.number);
      if !gap then t'
      else t'.(gapsDetected := t'.gapsDetected + 1,
               gapsRecovered := t'.gapsRecovered + if a.found then a.number - 1 - t'.expected + 1 else 0)
  }

  function Remember(t: Tracker, n: int): (r: Tracker)
    requires Sound(t)
    ensures Sound(r) && r == t.(ring := r.ring, position := r.position)
  {
    if t.ring == [] then t
    else t.(ring := t.ring[t.position := n], position := Wrap(t.position + 1, |t.ring|))
  }

  /** Steps 4 to 6 of the fast path; the flag says whether the message goes on. */
  function OnArrival(cfg: Config, t: Tracker, a: Arrival): (next: (Tracker, bool))
    requires Sound(t)
    ensures Sound(next.0)
  {
    var t' := CountGap(cfg, t, a);
    if cfg.duplicateCheck && a.number in t'.ring then (t'.(duplicates := t'.duplicates + 1), false)
    else
      var t'' := t'.(expected := a.number + 1);
      (if cfg.duplicateCheck then Remember(t'', a.number) else t'', true)
  }

  lemma RejectionCounts(cfg: Config, t: Tracker, a: Arrival)
    requires Sound(t)
    ensures var (t', pass) := OnArrival(cfg, t, a); t'.duplicates == t.duplicates + if pass then 0 else 1
  {
  }

  function After(cfg: Config, t: Tracker, arrivals: seq<Arrival>): (end: Tracker)
    requires Sound(t)
    ensures Sound(end)
    decreases |arrivals|
  {
    if arrivals == [] then t else After(cfg, OnArrival(cfg, t, arrivals[0]).0, arrivals[1..])
  }

  /** The numbers that pass, in order. */
  function Accepted(cfg: Config, t: Tracker, arrivals: seq<Arrival>): seq<int>
    requires Sound(t)
    decreases |arrivals|
  {
    if arrivals == [] then []
    else
      var (t', pass) := OnArrival(cfg, t, arrivals[0]);
      (if pass then [arrivals[0].number] else []) + Accepted(cfg, t', arrivals[1..])
  }

  lemma {:induction false} AfterSnoc(cfg: Config, t: Tracker, arrivals: seq<Arrival>, a: Arrival)
    requires Sound(t)
    ensures After(cfg, t, arrivals + [a]) == OnArrival(cfg, After(cfg, t, arrivals), a).0
    ensures Accepted(cfg, t, arrivals + [a])
            == Accepted(cfg, t, arrivals) + if OnArrival(cfg, After(cfg, t, arrivals), a).1 then [a.number] else []
    decreases |arrivals|
  {
    hide OnArrival;
    if arrivals == [] {
      assert arrivals + [a] == [a];
    } else {
      var t' := OnArrival(cfg, t, arrivals[0]).0;
      assert (arrivals + [a])[1..] == arrivals[1..] + [a];
      AfterSnoc(cfg, t', arrivals[1..], a);
    }
  }

  // ----- the duplicate window -----

  function LastOf(history: seq<int>, window: nat): seq<int> {
    if |history| <= window then history else history[|history| - window..]
  }

  /** The ring holds the last numbers of the history at their positions, and -1 where none has come yet. */
  ghost predicate WindowHolds(ring: seq<int>, position: nat, history: seq<int>) {
    |ring| > 0 ==>
      && position == Wrap(|history|, |ring|)
      && (forall j: nat | |history| - |ring| <= j < |history| :: ring[Wrap(j, |ring|)] == history[j])
      && (forall i | |history| <= i < |ring| :: ring[i] == UNUSED)
  }

  lemma WrapSmall(n: nat, size: nat)
    requires n < size
    ensures Wrap(n, size) == n
  {
  }

  lemma RememberKeepsWindow(t: Tracker, n: int, history: seq<int>)
    requires Sound(t) && WindowHolds(t.ring, t.position, history)
    ensures WindowHolds(Remember(t, n).ring, Remember(t, n).position, history + [n])
  {
    hide Wrap;
    if t.ring != [] {
      var size := |t.ring|;
      var longer := history + [n];
      WrapNext(|history|, size);
      forall j: nat | |longer| - size <= j < |longer|
        ensures Remember(t, n).ring[Wrap(j, size)] == longer[j]
      {
        if j < |history| {
          SlotsDistinct(j, |history|, size);
        }
      }
      if |history| < size {
        WrapSmall(|history|, size);
      }
    }
  }

  lemma OnArrivalKeepsWindow(cfg: Config, t: Tracker, a: Arrival, history: seq<int>)
    requires Sound(t) && WindowHolds(t.ring, t.position, history) && cfg.duplicateCheck
    ensures var (t', pass) := OnArrival(cfg, t, a);
            |t'.ring| == |t.ring| && WindowHolds(t'.ring, t'.position, history + if pass then [a.number] else [])
  {
    hide Wrap, WindowHolds;
    var t' := CountGap(cfg, t, a);
    if a.number in t'.ring {
      assert history + [] == history;
    } else {
      RememberKeepsWindow(t'.(expected := a.number + 1), a.number, history);
    }
  }

  lemma {:induction false} WindowAfter(cfg: Config, arrivals: seq<Arrival>)
    requires cfg.duplicateCheck
    ensures var t := After(cfg, Start(cfg), arrivals);
            |t.ring| == cfg.window && WindowHolds(t.ring, t.position, Accepted(cfg, Start(cfg), arrivals))
    decreases |arrivals|
  {
    hide OnArrival;
    if arrivals == [] {
      if cfg.window > 0 {
        WrapSmall(0, cfg.window);
      }
    } else {
      hide WindowHolds;
      var init := arrivals[..|arrivals| - 1];
      var a := arrivals[|arrivals| - 1];
      WindowAfter(cfg, init);
      AfterSnoc(cfg, Start(cfg), init, a);
      assert init + [a] == arrivals;
      OnArrivalKeepsWindow(cfg, After(cfg, Start(cfg), init), a, Accepted(cfg, Start(cfg), init));
    }
  }

  /** Searching the ring is searching the last accepted numbers, except that -1 matches the padding. */
  lemma InRingIff(ring: seq<int>, position: nat, history: seq<int>, n: int)
    requires WindowHolds(ring, position, history)
    ensures n in ring <==> n in LastOf(history, |ring|) || (n == UNUSED && |history| < |ring|)
  {
    hide Wrap;
    var last := LastOf(history, |ring|);
    var from := |history| - |last|;
    if n in ring {
      var i :| 0 <= i < |ring| && ring[i] == n;
      if i >= |history| {
        assert n == UNUSED;
      } else {
        var j := SlotOwner(|history|, |ring|, i);
        assert last[j - from] == n;
      }
    }
    if n in last {
      var k :| 0 <= k < |last| && last[k] == n;
      assert ring[Wrap(from + k, |ring|)] == n;
    }
    if n == UNUSED && |history| < |ring| {
      assert ring[|history|] == n;
    }
  }

  /** Every slot below the history's length was last written by one of the last `size` positions. */
  lemma {:induction false} SlotOwner(length: nat, size: nat, i: nat) returns (j: nat)
    requires i < size && i < length
    ensures length - size <= j < length && Wrap(j, size) == i
  {
    if length <= i + size {
      j := i;
    } else {
      j := SlotOwner(length - size, size, i);
      j := j + size;
    }
  }

  /**
   The window, for every run and every number: a message is rejected exactly when its number is among
   the last `window` accepted ones, or is -1 (the padding) before the ring has filled.
   */
  lemma {:induction false} RejectedIff(cfg: Config, arrivals: seq<Arrival>, a: Arrival)
    ensures var history := Accepted(cfg, Start(cfg), arrivals);
            !OnArrival(cfg, After(cfg, Start(cfg), arrivals), a).1
            <==> cfg.duplicateCheck
                 && (a.number in LastOf(history, cfg.window) || (a.number == UNUSED && |history| < cfg.window))
  {
    hide After, Accepted;
    if cfg.duplicateCheck {
      var t := After(cfg, Start(cfg), arrivals);
      WindowAfter(cfg, arrivals);
      InRingIff(t.ring, t.position, Accepted(cfg, Start(cfg), arrivals), a.number);
    }
  }

  /** Two passes of the same number are more than a window apart. */
  ghost predicate Spaced(history: seq<int>, window: nat) {
    forall i, j | 0 <= i < j < |history| && history[i] == history[j] :: j - i > window
  }

  lemma {:induction false} AcceptedSpaced(cfg: Config, arrivals: seq<Arrival>)
    requires cfg.duplicateCheck
    ensures Spaced(Accepted(cfg, Start(cfg), arrivals), cfg.window)
    decreases |arrivals|
  {
    hide OnArrival;
    if arrivals != [] {
      var init := arrivals[..|arrivals| - 1];
      var a := arrivals[|arrivals| - 1];
      assert init + [a] == arrivals;
      AcceptedSpaced(cfg, init);
      AfterSnoc(cfg, Start(cfg), init, a);
      RejectedIff(cfg, init, a);
      hide After, Accepted;
      var history := Accepted(cfg, Start(cfg), init);
      if OnArrival(cfg, After(cfg, Start(cfg), init), a).1 {
        SpacedSnoc(history, a.number, cfg.window);
      } else {
        assert history + [] == history;
      }
    }
  }

  lemma LastIsPart(history: seq<int>, window: nat)
    ensures forall n | n in LastOf(history, window) :: n in history
  {
  }

  lemma InLast(history: seq<int>, window: nat, i: nat)
    requires i < |history| <= i + window
    ensures history[i] in LastOf(history, window)
  {
    var last := LastOf(history, window);
    assert last[i - (|history| - |last|)] == history[i];
  }

  lemma SpacedSnoc(history: seq<int>, n: int, window: nat)
    requires Spaced(history, window) && n !in LastOf(history, window)
    ensures Spaced(history + [n], window)
  {
    var longer := history + [n];
    forall i, j | 0 <= i < j < |longer| && longer[i] == longer[j]
      ensures j - i > window
    {
      if j == |history| && j - i <= window {
        InLast(history, window, i);
      }
    }
  }

  // ----- gap accounting -----

  /** The gap in front of a number, had it any. */
  function GapBefore(t: Tracker, n: int): nat {
    if t.expected != 0 && n > t.expected then n - t.expected else 0
  }

  /** Gaps seen but not counted as recovered: over the tolerance, or no recording found. */
  function Skipped(cfg: Config, t: Tracker, arrivals: seq<Arrival>): nat
    requires Sound(t)
    decreases |arrivals|
  {
    if arrivals == [] then 0
    else
      var a := arrivals[0];
      var gap := GapBefore(t, a.number);
      (if gap <= cfg.tolerance && a.found then 0 else gap) + Skipped(cfg, OnArrival(cfg, t, a).0, arrivals[1..])
  }

  /**
   What breaks the ledger: an accepted number below the expected one moves the expectation back, and a
   gap in front of a rejected duplicate is counted although the expectation stays.
   */
  function Disorder(cfg: Config, t: Tracker, arrivals: seq<Arrival>): nat
    requires Sound(t)
    decreases |arrivals|
  {
    if arrivals == [] then 0
    else
      var a := arrivals[0];
      var (t', pass) := OnArrival(cfg, t, a);
      (if !pass then GapBefore(t, a.number)
       else if t.expected != 0 && a.number < t.expected then t.expected - a.number
       else 0)
      + Disorder(cfg, t', arrivals[1..])
  }

  /** Accepted numbers never fall below the expected one, rejected ones never exceed it. */
  predicate Orderly(cfg: Config, t: Tracker, arrivals: seq<Arrival>)
    requires Sound(t)
    decreases |arrivals|
  {
    arrivals == [] ||
      (var a := arrivals[0];
       var (t', pass) := OnArrival(cfg, t, a);
       (t.expected == 0 || (if pass then a.number >= t.expected else a.number <= t.expected))
       && Orderly(cfg, t', arrivals[1..]))
  }

  ghost predicate NonNegative(arrivals: seq<Arrival>) {
    forall a | a in arrivals :: a.number >= 0
  }

  lemma {:induction false} OrderlyMeansNoDisorder(cfg: Config, t: Tracker, arrivals: seq<Arrival>)
    requires Sound(t) && NonNegative(arrivals) && t.expected >= 0
    ensures Orderly(cfg, t, arrivals) <==> Disorder(cfg, t, arrivals) == 0
    decreases |arrivals|
  {
    hide Remember;
    if arrivals != [] {
      OrderlyMeansNoDisorder(cfg, OnArrival(cfg, t, arrivals[0]).0, arrivals[1..]);
    }
  }

  lemma LedgerStep(cfg: Config, t: Tracker, a: Arrival)
    requires Sound(t) && cfg.gapRecovery && cfg.tolerance >= 0 && a.number >= 0 && t.expected > 0
    ensures var (t', pass) := OnArrival(cfg, t, a);
            && t'.expected > 0
            && t'.expected - t.expected + Disorder(cfg, t, [a])
               == (if pass then 1 else 0) + (t'.gapsRecovered - t.gapsRecovered) + Skipped(cfg, t, [a])
  {
    hide Remember;
    var t' := OnArrival(cfg, t, a).0;
    assert Disorder(cfg, t', [a][1..]) == 0 && Skipped(cfg, t', [a][1..]) == 0;
  }

  lemma {:induction false} Ledger(cfg: Config, t: Tracker, arrivals: seq<Arrival>)
    requires Sound(t) && cfg.gapRecovery && cfg.tolerance >= 0 && NonNegative(arrivals) && t.expected > 0
    ensures var end := After(cfg, t, arrivals);
            end.expected - t.expected + Disorder(cfg, t, arrivals)
            == |Accepted(cfg, t, arrivals)| + (end.gapsRecovered - t.gapsRecovered) + Skipped(cfg, t, arrivals)
    decreases |arrivals|
  {
    if arrivals != [] {
      var a := arrivals[0];
      var t' := OnArrival(cfg, t, a).0;
      LedgerStep(cfg, t, a);
      assert Disorder(cfg, t', [a][1..]) == 0 && Skipped(cfg, t', [a][1..]) == 0;
      hide OnArrival;
      Ledger(cfg, t', arrivals[1..]);
    }
  }

  lemma {:induction false} ExpectedFollowsLast(cfg: Config, t: Tracker, arrivals: seq<Arrival>)
    requires Sound(t) && NonNegative(arrivals) && t.expected > 0
    ensures var accepted := Accepted(cfg, t, arrivals);
            After(cfg, t, arrivals).expected == if accepted == [] then t.expected else accepted[|accepted| - 1] + 1
    decreases |arrivals|
  {
    hide Remember;
    if arrivals != [] {
      ExpectedFollowsLast(cfg, OnArrival(cfg, t, arrivals[0]).0, arrivals[1..]);
    }
  }

  /** The first number is always accepted, opens no gap and sets the expectation. */
  lemma FirstArrival(cfg: Config, a: Arrival)
    requires cfg.gapRecovery && a.number >= 0
    ensures var (t, pass) := OnArrival(cfg, Start(cfg), a);
            pass && t.expected == a.number + 1 && t.gapsRecovered == 0
    ensures GapBefore(Start(cfg), a.number) == 0
  {
  }

  // ----- the streams on which the ledger balances -----

  /** A number above all that came before. */
  predicate AboveAll(before: seq<Arrival>, n: int) {
    forall a | a in before :: a.number < n
  }

  /** The running maxima of a stream: its numbers above all before them. */
  function Records(arrivals: seq<Arrival>): seq<int>
    decreases |arrivals|
  {
    if arrivals == [] then []
    else
      var init := arrivals[..|arrivals| - 1];
      var n := arrivals[|arrivals| - 1].number;
      Records(init) + if AboveAll(init, n) then [n] else []
  }

  /** Every number is above all before it, or repeats one of the last `window` running maxima. */
  predicate Ascends(cfg: Config, arrivals: seq<Arrival>)
    decreases |arrivals|
  {
    arrivals != [] ==>
      var init := arrivals[..|arrivals| - 1];
      var n := arrivals[|arrivals| - 1].number;
      && Ascends(cfg, init)
      && (AboveAll(init, n) || (cfg.duplicateCheck && n in LastOf(Records(init), cfg.window)))
  }

  ghost predicate Rises(history: seq<int>) {
    forall i, j | 0 <= i < j < |history| :: history[i] < history[j]
  }

  /** The running maxima rise, and the last of them is the greatest number of the stream. */
  lemma {:induction false} RecordsRise(arrivals: seq<Arrival>)
    ensures Rises(Records(arrivals))
    ensures arrivals != [] ==> Records(arrivals) != []
    ensures forall a | a in arrivals :: a.number <= Records(arrivals)[|Records(arrivals)| - 1]
    ensures forall n | n in Records(arrivals) :: exists a | a in arrivals :: a.number == n
    decreases |arrivals|
  {
    if arrivals != [] {
      var init := arrivals[..|arrivals| - 1];
      var a := arrivals[|arrivals| - 1];
      RecordsRise(init);
      assert a in arrivals && (forall b | b in init :: b in arrivals) && forall b | b in arrivals :: b in init || b == a;
      assert Records(init) != [] ==> Records(init)[|Records(init)| - 1] in Records(init);
    }
  }

  /** The window's verdict on a stream's next number, by its running maxima. */
  lemma NextAgainstRecords(records: seq<int>, window: nat, n: int)
    requires Rises(records)
    ensures n in LastOf(records, window) ==> records != [] && n <= records[|records| - 1]
  {
    LastIsPart(records, window);
  }

  /** One more arrival is in order exactly when the tracker's step on it is. */
  lemma {:induction false} OrderlySnoc(cfg: Config, t: Tracker, arrivals: seq<Arrival>, a: Arrival)
    requires Sound(t)
    ensures var end := After(cfg, t, arrivals);
            Orderly(cfg, t, arrivals + [a])
            <==> Orderly(cfg, t, arrivals)
                 && (end.expected == 0
                     || if OnArrival(cfg, end, a).1 then a.number >= end.expected else a.number <= end.expected)
    decreases |arrivals|
  {
    hide OnArrival;
    if arrivals == [] {
      assert arrivals + [a] == [a] && [a][1..] == [];
    } else {
      assert (arrivals + [a])[1..] == arrivals[1..] + [a];
      OrderlySnoc(cfg, OnArrival(cfg, t, arrivals[0]).0, arrivals[1..], a);
    }
  }

  lemma NothingYet(cfg: Config)
    ensures Orderly(cfg, Start(cfg), []) && Accepted(cfg, Start(cfg), []) == []
  {
  }

  lemma LastExpected(cfg: Config, arrivals: seq<Arrival>)
    requires cfg.gapRecovery && NonNegative(arrivals)
    ensures var accepted := Accepted(cfg, Start(cfg), arrivals);
            After(cfg, Start(cfg), arrivals).expected == if accepted == [] then 0 else accepted[|accepted| - 1] + 1
  {
    hide OnArrival;
    if arrivals != [] {
      FirstArrival(cfg, arrivals[0]);
      ExpectedFollowsLast(cfg, OnArrival(cfg, Start(cfg), arrivals[0]).0, arrivals[1..]);
    }
  }

  lemma AscendingStep(cfg: Config, init: seq<Arrival>, a: Arrival)
    requires cfg.gapRecovery && NonNegative(init) && a.number >= 0
    requires Orderly(cfg, Start(cfg), init) && Accepted(cfg, Start(cfg), init) == Records(init)
    ensures Orderly(cfg, Start(cfg), init + [a])
            <==> AboveAll(init, a.number) || (cfg.duplicateCheck && a.number in LastOf(Records(init), cfg.window))
    ensures Orderly(cfg, Start(cfg), init + [a])
            ==> Accepted(cfg, Start(cfg), init + [a]) == Records(init) + if AboveAll(init, a.number) then [a.number] else []
  {
    hide OnArrival, Orderly, After, Accepted, LastOf, Records, Rises;
    var records := Records(init);
    RecordsRise(init);
    RejectedIff(cfg, init, a);
    AfterSnoc(cfg, Start(cfg), init, a);
    LastExpected(cfg, init);
    NextAgainstRecords(records, cfg.window, a.number);
    OrderlySnoc(cfg, Start(cfg), init, a);
    if records != [] {
      assert records[|records| - 1] in records;
      var b :| b in init && b.number == records[|records| - 1];
    }
    assert records + [] == records;
  }

  /** The orderly streams are the ascending ones, and on them the accepted numbers are the running maxima. */
  lemma {:induction false} OrderlyIffAscends(cfg: Config, arrivals: seq<Arrival>)
    requires cfg.gapRecovery && NonNegative(arrivals)
    ensures Orderly(cfg, Start(cfg), arrivals) <==> Ascends(cfg, arrivals)
    ensures Ascends(cfg, arrivals) ==> Accepted(cfg, Start(cfg), arrivals) == Records(arrivals)
    decreases |arrivals|
  {
    hide Orderly, Accepted, OnArrival, After, LastOf, AboveAll;
    if arrivals == [] {
      NothingYet(cfg);
    } else {
      var init := arrivals[..|arrivals| - 1];
      var a := arrivals[|arrivals| - 1];
      assert arrivals == init + [a];
      assert a in arrivals && forall b | b in init :: b in arrivals;
      OrderlyIffAscends(cfg, init);
      OrderlySnoc(cfg, Start(cfg), init, a);
      if Ascends(cfg, init) {
        AscendingStep(cfg, init, a);
      }
    }
  }

  /**
   Gap accounting, for every non-negative stream: the recovered count is the span of the numbers less
   those accepted and those skipped, plus the disorder; so the plain ledger balances exactly on the
   ascending streams.
   */
  lemma {:induction false} GapAccounting(cfg: Config, arrivals: seq<Arrival>)
    requires cfg.gapRecovery && cfg.tolerance >= 0 && NonNegative(arrivals) && arrivals != []
    ensures var accepted := Accepted(cfg, Start(cfg), arrivals);
            var end := After(cfg, Start(cfg), arrivals);
            && accepted != [] && accepted[0] == arrivals[0].number
            && end.expected == accepted[|accepted| - 1] + 1
            && var balance := (end.expected - accepted[0]) - |accepted| - Skipped(cfg, Start(cfg), arrivals);
               && end.gapsRecovered == balance + Disorder(cfg, Start(cfg), arrivals)
               && (end.gapsRecovered == balance <==> Ascends(cfg, arrivals))
  {
    hide Ascends, Orderly;
    OrderlyIffAscends(cfg, arrivals);
    OrderlyMeansNoDisorder(cfg, Start(cfg), arrivals);
    FirstTaken(cfg, arrivals);
  }

  lemma FirstTaken(cfg: Config, arrivals: seq<Arrival>)
    requires cfg.gapRecovery && cfg.tolerance >= 0 && NonNegative(arrivals) && arrivals != []
    ensures var accepted := Accepted(cfg, Start(cfg), arrivals);
            var end := After(cfg, Start(cfg), arrivals);
            && accepted != [] && accepted[0] == arrivals[0].number
            && end.expected == accepted[|accepted| - 1] + 1
            && end.gapsRecovered == (end.expected - accepted[0]) - |accepted| - Skipped(cfg, Start(cfg), arrivals)
                                    + Disorder(cfg, Start(cfg), arrivals)
  {
    hide OnArrival;
    var a := arrivals[0];
    var t := OnArrival(cfg, Start(cfg), a).0;
    FirstArrival(cfg, a);
    Ledger(cfg, t, arrivals[1..]);
    ExpectedFollowsLast(cfg, t, arrivals[1..]);
  }

  /** The plain ledger fails for a stream that steps back: 10, 5, 10 with the second 10 a duplicate. */
  lemma DisorderedStream()
    ensures var cfg := Config(true, 5, true, 4);
            var arrivals := [Arrival(10, true), Arrival(5, true), Arrival(10, true)];
            After(cfg, Start(cfg), arrivals).gapsRecovered == 4 && Accepted(cfg, Start(cfg), arrivals) == [10, 5]
  {
    hide OnArrival;
    var cfg := Config(true, 5, true, 4);
    var a, b := Arrival(10, true), Arrival(5, true);
    DisorderedSteps();
    var t1 := OnArrival(cfg, Start(cfg), a).0;
    var t2 := OnArrival(cfg, t1, b).0;
    assert [a, b, a][1..] == [b, a] && [b, a][1..] == [a] && [a][1..] == [];
    var t3 := OnArrival(cfg, t2, a).0;
    assert After(cfg, t3, []) == t3 && Accepted(cfg, t3, []) == [];
    assert After(cfg, t2, [a]) == t3 && Accepted(cfg, t2, [a]) == [];
    assert After(cfg, t1, [b, a]) == After(cfg, t2, [a]) && Accepted(cfg, t1, [b, a]) == [5];
  }

  lemma DisorderedSteps()
    ensures var cfg := Config(true, 5, true, 4);
            && OnArrival(cfg, Start(cfg), Arrival(10, true)) == (Tracker(11, [10, -1, -1, -1], 1, 0, 0, 0), true)
            && OnArrival(cfg, Tracker(11, [10, -1, -1, -1], 1, 0, 0, 0), Arrival(5, true)) == (Tracker(6, [10, 5, -1, -1], 2, 0, 0, 0), true)
            && OnArrival(cfg, Tracker(6, [10, 5, -1, -1], 2, 0, 0, 0), Arrival(10, true)) == (Tracker(6, [10, 5, -1, -1], 2, 1, 4, 1), false)
  {
    var cfg := Config(true, 5, true, 4);
    assert Start(cfg).ring == [-1, -1, -1, -1];
    assert [-1, -1, -1, -1][0 := 10] == [10, -1, -1, -1];
    assert [10, -1, -1, -1][1 := 5] == [10, 5, -1, -1];
    assert [10, 5, -1, -1][0] == 10;
  }

  // ----- the counters -----

  /** A gap the subscriber reports: the number jumps past the expected one, by no more than the tolerance. */
  predicate SmallGap(cfg: Config, expected: int, n: int) {
    expected < n <= expected + cfg.tolerance
  }

  /** Everything one arrival does to the expected number and the counters, for any tracker. */
  lemma {:induction false} ArrivalCounts(cfg: Config, t: Tracker, a: Arrival)
    requires Sound(t)
    ensures var (t', pass) := OnArrival(cfg, t, a);
            var gap := cfg.gapRecovery && t.expected != 0 && SmallGap(cfg, t.expected, a.number);
            && t'.gapsDetected == t.gapsDetected + (if gap then 1 else 0)
            && t'.gapsRecovered == t.gapsRecovered + (if gap && a.found then a.number - t.expected else 0)
            && t'.duplicates == t.duplicates + (if pass then 0 else 1)
            && t'.expected == (if pass || (cfg.gapRecovery && t.expected == 0) then a.number + 1 else t.expected)
  {
    hide Remember;
  }

  /** Every arrival is accepted or counted as a duplicate. */
  lemma {:induction false} DuplicatesCounted(cfg: Config, t: Tracker, arrivals: seq<Arrival>)
    requires Sound(t)
    ensures After(cfg, t, arrivals).duplicates - t.duplicates == |arrivals| - |Accepted(cfg, t, arrivals)|
    decreases |arrivals|
  {
    hide OnArrival;
    if arrivals != [] {
      RejectionCounts(cfg, t, arrivals[0]);
      DuplicatesCounted(cfg, OnArrival(cfg, t, arrivals[0]).0, arrivals[1..]);
    }
  }

  /**
   The gap counters read off the stream: an arrival is a gap exactly when it jumps past the successor of the
   last accepted number by at most the tolerance, and a found one recovers the numbers in between.
   */
  lemma {:induction false} GapsOffStream(cfg: Config, arrivals: seq<Arrival>, a: Arrival)
    requires cfg.gapRecovery && NonNegative(arrivals) && a.number >= 0
    ensures var history := Accepted(cfg, Start(cfg), arrivals);
            var t, t' := After(cfg, Start(cfg), arrivals), After(cfg, Start(cfg), arrivals + [a]);
            var gap := history != [] && SmallGap(cfg, history[|history| - 1] + 1, a.number);
            && t'.gapsDetected == t.gapsDetected + (if gap then 1 else 0)
            && t'.gapsRecovered == t.gapsRecovered + (if gap && a.found then a.number - 1 - history[|history| - 1] else 0)
            && After(cfg, Start(cfg), []).gapsDetected == 0 == After(cfg, Start(cfg), []).gapsRecovered
  {
    hide OnArrival, After, Accepted;
    LastExpected(cfg, arrivals);
    AcceptedNonNegative(cfg, Start(cfg), arrivals);
    AfterSnoc(cfg, Start(cfg), arrivals, a);
    ArrivalCounts(cfg, After(cfg, Start(cfg), arrivals), a);
    NoArrivals(cfg);
    var history := Accepted(cfg, Start(cfg), arrivals);
    assert history != [] ==> history[|history| - 1] in history;
  }

  lemma NoArrivals(cfg: Config)
    ensures After(cfg, Start(cfg), []) == Start(cfg)
  {
  }

  lemma {:induction false} AcceptedNonNegative(cfg: Config, t: Tracker, arrivals: seq<Arrival>)
    requires Sound(t) && NonNegative(arrivals)
    ensures forall n | n in Accepted(cfg, t, arrivals) :: n >= 0
    decreases |arrivals|
  {
    hide OnArrival;
    if arrivals != [] {
      AcceptedNonNegative(cfg, OnArrival(cfg, t, arrivals[0]).0, arrivals[1..]);
    }
  }
}

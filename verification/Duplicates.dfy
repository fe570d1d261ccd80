/**
 Which messages are processed twice: the places of the processed messages among those published and
 among those that passed the window, and what lies between two copies of one number.
 */
module Duplicates {
  import opened Bytes
  import opened MessageFrame
  import opened Pipeline
  import opened Ownership
  import opened Delivery
  import Guarantees
  import SeenFilter
  import Tracking

  function Signed(us: seq<nat>): (numbers: seq<int>)
    ensures |numbers| == |us|
  {
    seq(|us|, i requires 0 <= i < |us| => ToSigned(us[i]))
  }

  lemma {:induction false} PassedNumbers(st: Settings, checked: seq<Fragment>)
    ensures Signed(Keys(Guarantees.Messages(Passed(st, checked))))
            == Tracking.Accepted(st.tracking, Tracking.Start(st.tracking), Arrivals(checked))
    decreases |checked|
  {
    hide Received, Tracking.OnArrival, Parse;
    if checked != [] {
      var init := checked[..|checked| - 1];
      var f := checked[|checked| - 1];
      PassedNumbers(st, init);
      PassedNext(st, init, f);
      assert init + [f] == checked;
      assert Arrivals(checked) == Arrivals(init) + [ArrivalOf(f)];
      Tracking.AfterSnoc(st.tracking, Tracking.Start(st.tracking), Arrivals(init), ArrivalOf(f));
      MessagesSnoc(Passed(st, init), f);
    }
  }

  lemma MessagesSnoc(fragments: seq<Fragment>, f: Fragment)
    ensures Signed(Keys(Guarantees.Messages(fragments + [f]))) == Signed(Keys(Guarantees.Messages(fragments))) + [MessageNumber(Received(f))]
    ensures Signed(Keys(Guarantees.Messages(fragments + []))) == Signed(Keys(Guarantees.Messages(fragments)))
  {
    hide Received, Parse;
    assert fragments + [] == fragments;
  }

  /** The places the seen set lets through. */
  function Places(us: seq<nat>, limit: nat): (places: seq<nat>)
    decreases |us|
  {
    if us == [] then []
    else
      Places(us[..|us| - 1], limit)
      + if us[|us| - 1] in SeenFilter.After({}, us[..|us| - 1], limit) then [] else [|us| - 1]
  }

  lemma {:induction false} PlacesIncrease(us: seq<nat>, limit: nat)
    ensures forall a | 0 <= a < |Places(us, limit)| :: Places(us, limit)[a] < |us| && SeenFilter.Fresh(us, Places(us, limit)[a], limit)
    ensures forall a, b | 0 <= a < b < |Places(us, limit)| :: Places(us, limit)[a] < Places(us, limit)[b]
    decreases |us|
  {
    hide SeenFilter.After;
    if us != [] {
      var init := us[..|us| - 1];
      PlacesIncrease(init, limit);
      forall i: nat | i < |init|
        ensures SeenFilter.Fresh(us, i, limit) == SeenFilter.Fresh(init, i, limit)
      {
        assert us[..i] == init[..i];
      }
    }
  }

  lemma {:induction false} ThroughPlaces(sent: seq<Content>, limit: nat)
    ensures var places := Places(Keys(sent), limit);
            |Through(sent, limit)| == |places|
            && forall a | 0 <= a < |places| :: places[a] < |sent| && Through(sent, limit)[a] == sent[places[a]]
    decreases |sent|
  {
    hide SeenFilter.After, Key;
    if sent != [] {
      var init := sent[..|sent| - 1];
      ThroughPlaces(init, limit);
      assert Keys(sent)[..|sent| - 1] == Keys(init);
    }
  }

  lemma {:induction false} PlacesExact(us: seq<nat>, limit: nat, i: nat)
    requires i < |us|
    ensures i in Places(us, limit) <==> SeenFilter.Fresh(us, i, limit)
    decreases |us|
  {
    hide SeenFilter.After;
    var init := us[..|us| - 1];
    PlacesIncrease(init, limit);
    if i < |init| {
      PlacesExact(init, limit, i);
      assert us[..i] == init[..i];
    } else {
      assert us[..i] == init;
    }
  }

  lemma FreshInPrefix(us: seq<nat>, prefix: seq<nat>, i: nat, limit: nat)
    requires i < |prefix| <= |us| && us[..|prefix|] == prefix
    ensures SeenFilter.Fresh(us, i, limit) == SeenFilter.Fresh(prefix, i, limit)
  {
    assert us[..i] == prefix[..i];
  }

  /** Where the processed messages stand among the published ones. */
  ghost function ProcessedAt(st: Settings, s: State): seq<nat>
    requires 0 <= Handled(s) <= |s.sent|
  {
    Places(Keys(s.sent[..Handled(s)]), st.seenLimit)
  }

  lemma {:induction false} ProcessedWhere(st: Settings, schedule: seq<Turn>)
    requires st.ringSize >= 2
    ensures var s := Pipeline.Run(st, schedule);
            && 0 <= Handled(s) <= |s.sent|
            && var at := ProcessedAt(st, s);
               && |at| == |s.processed|
               && (forall a | 0 <= a < |at| :: at[a] < Handled(s) && s.processed[a] == s.sent[at[a]])
               && (forall a, b | 0 <= a < b < |at| :: at[a] < at[b])
  {
    hide Pipeline.Run, Key, Keys, Through, Places, InProcessing, Decided, Handled, WorkerHand;
    var s := Pipeline.Run(st, schedule);
    Guarantees.ProcessedIsFilterOfSent(st, schedule);
    ThroughPlaces(s.sent[..Handled(s)], st.seenLimit);
    PlacesIncrease(Keys(s.sent[..Handled(s)]), st.seenLimit);
  }

  lemma PlacesAreFresh(st: Settings, s: State, j: nat)
    requires 0 <= Handled(s) <= |s.sent| && j < |s.sent|
    ensures j in ProcessedAt(st, s) <==> j < Handled(s) && SeenFilter.Fresh(Keys(s.sent), j, st.seenLimit)
  {
    hide Key, Places, Handled, SeenFilter.Fresh;
    var prefix := Keys(s.sent[..Handled(s)]);
    if j < Handled(s) {
      PlacesExact(prefix, st.seenLimit, j);
      FreshInPrefix(Keys(s.sent), prefix, j, st.seenLimit);
    } else {
      PlacesIncrease(prefix, st.seenLimit);
    }
  }

  /**
   Which published messages have reached processMessage, in every reachable state: among those the worker
   is done with, exactly those between which and every earlier copy the published numbers outgrew the
   seen set.
   */
  lemma {:induction false} ProcessedIff(st: Settings, schedule: seq<Turn>, j: nat)
    requires st.ringSize >= 2 && j < |Pipeline.Run(st, schedule).sent|
    ensures var s := Pipeline.Run(st, schedule);
            && 0 <= Handled(s) <= |s.sent|
            && var us := Keys(s.sent);
               j in ProcessedAt(st, s)
               <==> j < Handled(s)
                    && forall i: nat | i < j && us[i] == us[j] :: exists k | i <= k < j :: SeenFilter.ClearedAt(us, k, st.seenLimit)
  {
    hide Pipeline.Run, Key, ProcessedAt, Handled, SeenFilter.Fresh, SeenFilter.ClearedAt;
    var s := Pipeline.Run(st, schedule);
    ProcessedWhere(st, schedule);
    PlacesAreFresh(st, s, j);
    SeenFilter.FreshIff(Keys(s.sent), j, st.seenLimit);
  }

  /** If two processed messages carry one number, the seen set was cleared from the first on, before the second. */
  lemma {:induction false} RepeatedNeedsClear(st: Settings, schedule: seq<Turn>, a: nat, b: nat)
    requires st.ringSize >= 2
    requires var s := Pipeline.Run(st, schedule);
             a < b < |s.processed| && Key(s.processed[a]) == Key(s.processed[b])
    ensures var s := Pipeline.Run(st, schedule);
            && 0 <= Handled(s) <= |s.sent|
            && var at := ProcessedAt(st, s);
               && |at| == |s.processed| && at[a] < at[b] < |s.sent|
               && s.sent[at[a]] == s.processed[a] && s.sent[at[b]] == s.processed[b]
               && exists k | at[a] <= k < at[b] :: SeenFilter.ClearedAt(Keys(s.sent), k, st.seenLimit)
  {
    hide Pipeline.Run, Key, ProcessedAt, Handled, SeenFilter.ClearedAt;
    var s := Pipeline.Run(st, schedule);
    ProcessedWhere(st, schedule);
    var at := ProcessedAt(st, s);
    assert at[b] in at;
    ProcessedIff(st, schedule, at[b]);
    assert Keys(s.sent)[at[a]] == Keys(s.sent)[at[b]];
  }

  // ----- places among the fragments that passed the window -----

  /** Where the fragments the queue took stand among those it was offered. */
  function TakenAt(fates: seq<bool>): (places: seq<nat>)
    decreases |fates|
  {
    if fates == [] then []
    else
      var k := |fates| - 1;
      TakenAt(fates[..k]) + if fates[k] then [k] else []
  }

  lemma {:induction false} TakenAtSpread(fates: seq<bool>)
    ensures forall i | 0 <= i < |TakenAt(fates)| :: TakenAt(fates)[i] < |fates| && fates[TakenAt(fates)[i]]
    ensures forall i, j | 0 <= i < j < |TakenAt(fates)| :: TakenAt(fates)[j] - TakenAt(fates)[i] >= j - i
    decreases |fates|
  {
    if fates != [] {
      var k := |fates| - 1;
      TakenAtSpread(fates[..k]);
      TakenAtMost(fates[..k]);
    }
  }

  lemma {:induction false} TakenAtMost(fates: seq<bool>)
    ensures forall i | 0 <= i < |TakenAt(fates)| :: |fates| - TakenAt(fates)[i] >= |TakenAt(fates)| - i
    decreases |fates|
  {
    if fates != [] {
      TakenAtMost(fates[..|fates| - 1]);
    }
  }

  lemma {:induction false} SelectedAt(fragments: seq<Fragment>, fates: seq<bool>)
    requires |fragments| == |fates|
    ensures |Select(fragments, fates)| == |TakenAt(fates)|
    ensures forall i | 0 <= i < |TakenAt(fates)| ::
              TakenAt(fates)[i] < |fragments| && Select(fragments, fates)[i] == fragments[TakenAt(fates)[i]]
    decreases |fates|
  {
    if fates != [] {
      var k := |fates| - 1;
      SelectedAt(fragments[..k], fates[..k]);
    }
  }

  lemma {:induction false} NoRefusalNoShift(fates: seq<bool>)
    requires Refusals(fates) == 0
    ensures |TakenAt(fates)| == |fates| && forall i | 0 <= i < |fates| :: TakenAt(fates)[i] == i
    decreases |fates|
  {
    if fates != [] {
      NoRefusalNoShift(fates[..|fates| - 1]);
    }
  }

  /** Where a published message stands among the fragments that passed the window. */
  lemma {:induction false} PublishedWhere(st: Settings, schedule: seq<Turn>)
    requires st.ringSize >= 2
    ensures var s := Pipeline.Run(st, schedule);
            var passed := Passed(st, s.checked);
            && |TakenAt(s.fates)| == |s.sent|
            && (forall i | 0 <= i < |s.sent| :: TakenAt(s.fates)[i] < |passed| && s.sent[i] == Received(passed[TakenAt(s.fates)[i]]))
            && (forall i, j | 0 <= i < j < |s.sent| :: TakenAt(s.fates)[j] - TakenAt(s.fates)[i] >= j - i)
            && (st.poolSize < st.ringSize ==> forall i | 0 <= i < |s.sent| :: TakenAt(s.fates)[i] == i)
  {
    hide Pipeline.Run, Received, Passed, Select, Refusals, TakenAt, InFlight, Decided, Handled, InProcessing,
      WorkerHand;
    var s := Pipeline.Run(st, schedule);
    Guarantees.SentIsSelection(st, schedule);
    Guarantees.ProcessedIsFilterOfSent(st, schedule);
    SelectedAt(Passed(st, s.checked)[..|s.fates|], s.fates);
    TakenAtSpread(s.fates);
    if st.poolSize < st.ringSize {
      Guarantees.QueueNeverFull(st, schedule);
      NoRefusalNoShift(s.fates);
    }
  }

  /** Two fragments that passed the window with one number stand more than a window apart. */
  lemma PassedSpaced(st: Settings, checked: seq<Fragment>, p: nat, q: nat)
    requires st.tracking.duplicateCheck && p < q < |Passed(st, checked)|
    requires Key(Received(Passed(st, checked)[p])) == Key(Received(Passed(st, checked)[q]))
    ensures q - p > st.tracking.window
  {
    hide Received, Passed, Key, Tracking.Accepted;
    PassedNumbers(st, checked);
    Tracking.AcceptedSpaced(st.tracking, Arrivals(checked));
    var numbers := Signed(Keys(Guarantees.Messages(Passed(st, checked))));
    assert numbers[p] == numbers[q];
  }

  /**
   The composed duplicate guarantee on whole runs, for every pool and ring size: if the a-th and the b-th
   processed message carry one number, their fragments stand more than a window apart among those that
   passed, and between their places among the published ones the seen set was cleared. With room in the
   ring the two places are the same.
   */
  lemma {:induction false} ProcessedTwice(st: Settings, schedule: seq<Turn>, a: nat, b: nat)
    requires st.ringSize >= 2 && st.tracking.duplicateCheck
    requires var s := Pipeline.Run(st, schedule);
             a < b < |s.processed| && Key(s.processed[a]) == Key(s.processed[b])
    ensures var s := Pipeline.Run(st, schedule);
            && 0 <= Handled(s) <= |s.sent| == |TakenAt(s.fates)|
            && var at := ProcessedAt(st, s);
               var passed := Passed(st, s.checked);
               && |at| == |s.processed| && at[a] < at[b] < |s.sent|
               && var p, q := TakenAt(s.fates)[at[a]], TakenAt(s.fates)[at[b]];
                  && p < q < |passed|
                  && s.processed[a] == Received(passed[p]) && s.processed[b] == Received(passed[q])
                  && q - p > st.tracking.window
                  && (exists k | at[a] <= k < at[b] :: SeenFilter.ClearedAt(Keys(s.sent), k, st.seenLimit))
                  && (st.poolSize < st.ringSize ==> p == at[a] && q == at[b])
  {
    hide Pipeline.Run, Key, Received, Passed, TakenAt, ProcessedAt, Handled, SeenFilter.ClearedAt;
    var s := Pipeline.Run(st, schedule);
    RepeatedNeedsClear(st, schedule, a, b);
    PublishedWhere(st, schedule);
    var at := ProcessedAt(st, s);
    PassedSpaced(st, s.checked, TakenAt(s.fates)[at[a]], TakenAt(s.fates)[at[b]]);
  }

  /** A run that publishes no more distinct numbers than the seen set holds processes each at most once. */
  lemma {:induction false} ProcessedOnce(st: Settings, schedule: seq<Turn>, a: nat, b: nat)
    requires st.ringSize >= 2
    requires var s := Pipeline.Run(st, schedule);
             a < b < |s.processed| && |SeenFilter.Numbers(Keys(s.sent))| <= st.seenLimit
    ensures var s := Pipeline.Run(st, schedule); Key(s.processed[a]) != Key(s.processed[b])
  {
    hide Pipeline.Run, Key, SeenFilter.Numbers, SeenFilter.ClearedAt, ProcessedAt, Handled;
    var s := Pipeline.Run(st, schedule);
    if Key(s.processed[a]) == Key(s.processed[b]) {
      RepeatedNeedsClear(st, schedule, a, b);
      var k :| 0 <= k < |s.sent| && SeenFilter.ClearedAt(Keys(s.sent), k, st.seenLimit);
      SeenFilter.FewNumbersNeverClear(Keys(s.sent), k, st.seenLimit);
    }
  }
}

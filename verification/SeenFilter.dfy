/**
 The worker's duplicate filter (MessageWorker.cpp), a set that is cleared when it outgrows its limit,
 and what it guarantees behind the subscriber's window.
 */
module SeenFilter {
  import opened Bytes
  import Tracking

  /** checkDuplicate: the next set, and whether the number was already in it. */
  function Check(seen: set<nat>, u: nat, limit: nat): (set<nat>, bool) {
    if u in seen then (seen, true)
    else
      var grown := seen + {u};
      (if |grown| > limit then {} else grown, false)
  }

  /** The set after a stream of numbers. */
  function After(seen: set<nat>, us: seq<nat>, limit: nat): set<nat>
    decreases |us|
  {
    if us == [] then seen else Check(After(seen, us[..|us| - 1], limit), us[|us| - 1], limit).0
  }

  /** Whether the i-th number of the stream is let through. */
  predicate Fresh(us: seq<nat>, i: nat, limit: nat)
    requires i < |us|
  {
    us[i] !in After({}, us[..i], limit)
  }

  function Numbers(us: seq<nat>): set<nat> {
    set u | u in us
  }

  /**
   Where the current stretch of the stream begins: after the last number that was the limit's next
   distinct one since the stretch before it began.
   */
  function Epoch(us: seq<nat>, limit: nat): (start: nat)
    ensures start <= |us|
    decreases |us|
  {
    if us == [] then 0
    else
      var start := Epoch(us[..|us| - 1], limit);
      if |Numbers(us[start..])| > limit then |us| else start
  }

  /** Whether more than `limit` distinct numbers have come from the current stretch's start up to the i-th. */
  predicate ClearedAt(us: seq<nat>, i: nat, limit: nat)
    requires i < |us|
  {
    |Numbers(us[Epoch(us[..i], limit)..i + 1])| > limit
  }

  lemma AfterNext(us: seq<nat>, i: nat, limit: nat)
    requires i < |us|
    ensures After({}, us[..i + 1], limit) == Check(After({}, us[..i], limit), us[i], limit).0
  {
    var prefix := us[..i + 1];
    assert prefix[..|prefix| - 1] == us[..i];
  }

  lemma EpochNext(us: seq<nat>, i: nat, limit: nat)
    requires i < |us|
    ensures Epoch(us[..i + 1], limit) == if ClearedAt(us, i, limit) then i + 1 else Epoch(us[..i], limit)
  {
    var prefix := us[..i + 1];
    assert prefix[..|prefix| - 1] == us[..i];
    var start := Epoch(us[..i], limit);
    assert prefix[start..] == us[start..i + 1];
  }

  lemma NumbersSnoc(us: seq<nat>, u: nat)
    ensures Numbers(us + [u]) == Numbers(us) + {u}
  {
  }

  /** The set holds exactly the numbers of the current stretch: the filter's state, read off the stream. */
  lemma {:induction false} SetIsEpoch(us: seq<nat>, j: nat, limit: nat)
    requires j <= |us|
    ensures After({}, us[..j], limit) == Numbers(us[Epoch(us[..j], limit)..j])
    ensures |After({}, us[..j], limit)| <= limit
    decreases j
  {
    hide After, Epoch, Check, Numbers, ClearedAt;
    if j == 0 {
      assert us[..0] == [];
      NothingSeen(limit);
    } else {
      SetIsEpoch(us, j - 1, limit);
      AfterNext(us, j - 1, limit);
      EpochNext(us, j - 1, limit);
      NextStretch(us, j - 1, limit);
    }
  }

  lemma NothingSeen(limit: nat)
    ensures After({}, [], limit) == {} == Numbers([])
  {
  }

  lemma NextStretch(us: seq<nat>, i: nat, limit: nat)
    requires i < |us|
    requires |Numbers(us[Epoch(us[..i], limit)..i])| <= limit
    ensures var start := Epoch(us[..i], limit);
            var seen := Check(Numbers(us[start..i]), us[i], limit).0;
            seen == Numbers(us[if ClearedAt(us, i, limit) then i + 1 else start..i + 1]) && |seen| <= limit
  {
    hide Epoch, Check, Numbers;
    var start := Epoch(us[..i], limit);
    assert us[start..i + 1] == us[start..i] + [us[i]] && us[i + 1..i + 1] == [];
    NumbersSnoc(us[start..i], us[i]);
    CheckByNumbers(us[start..i], us[i], limit);
    NothingSeen(limit);
  }

  lemma CheckByNumbers(us: seq<nat>, u: nat, limit: nat)
    requires |Numbers(us)| <= limit
    ensures Check(Numbers(us), u, limit).0 == if |Numbers(us) + {u}| > limit then {} else Numbers(us) + {u}
  {
    if u in Numbers(us) {
      assert Numbers(us) + {u} == Numbers(us);
    }
  }

  /** The stretch that holds the j-th number begins after i exactly when a clearing fell from i on, before j. */
  lemma {:induction false} EpochAfter(us: seq<nat>, i: nat, j: nat, limit: nat)
    requires i <= j <= |us|
    ensures Epoch(us[..j], limit) > i <==> exists k | i <= k < j :: ClearedAt(us, k, limit)
    decreases j
  {
    hide ClearedAt;
    if i < j {
      EpochAfter(us, i, j - 1, limit);
      EpochNext(us, j - 1, limit);
    }
  }

  /**
   The worker's filter, exactly: a number is let through if and only if between every earlier copy of it
   and itself the stream held the limit's next distinct number, at which the set is cleared.
   */
  lemma {:induction false} FreshIff(us: seq<nat>, j: nat, limit: nat)
    requires j < |us|
    ensures Fresh(us, j, limit)
            <==> forall i: nat | i < j && us[i] == us[j] :: exists k | i <= k < j :: ClearedAt(us, k, limit)
  {
    hide After, Epoch, ClearedAt;
    SetIsEpoch(us, j, limit);
    var start := Epoch(us[..j], limit);
    forall i: nat | i < j && us[i] == us[j]
      ensures start > i <==> exists k | i <= k < j :: ClearedAt(us, k, limit)
    {
      EpochAfter(us, i, j, limit);
    }
    InStretch(us, start, j);
  }

  lemma InStretch(us: seq<nat>, start: nat, j: nat)
    requires start <= j < |us|
    ensures us[j] in Numbers(us[start..j]) <==> exists i: nat | i < j :: us[i] == us[j] && start <= i
  {
    if us[j] in us[start..j] {
      var k :| 0 <= k < j - start && us[start..j][k] == us[j];
      assert us[start + k] == us[j];
    }
    if i: nat :| i < j && us[i] == us[j] && start <= i {
      assert us[start..j][i - start] == us[j];
    }
  }

  /** A number let through twice means the set was cleared from the first time on, before the second. */
  lemma RepeatNeedsClear(us: seq<nat>, i: nat, j: nat, limit: nat)
    requires i < j < |us| && us[i] == us[j] && Fresh(us, j, limit)
    ensures exists k | i <= k < j :: ClearedAt(us, k, limit)
  {
    hide Fresh, ClearedAt;
    FreshIff(us, j, limit);
  }

  /**
   The two filters composed: when two copies of a number both pass the subscriber's window and the
   worker's set, more than a window of messages lies between them and the set was cleared in between.
   */
  lemma {:induction false} ComposedGuarantee(cfg: Tracking.Config, arrivals: seq<Tracking.Arrival>, us: seq<nat>, i: nat, j: nat, limit: nat)
    requires cfg.duplicateCheck
    requires |us| <= |Tracking.Accepted(cfg, Tracking.Start(cfg), arrivals)|
    requires forall k | 0 <= k < |us| :: ToSigned(us[k]) == Tracking.Accepted(cfg, Tracking.Start(cfg), arrivals)[k]
    requires i < j < |us| && us[i] == us[j]
    requires Fresh(us, i, limit) && Fresh(us, j, limit)
    ensures j - i > cfg.window
    ensures exists k | i <= k < j :: ClearedAt(us, k, limit)
  {
    Tracking.AcceptedSpaced(cfg, arrivals);
    RepeatNeedsClear(us, i, j, limit);
  }

  lemma SubsetSize<T>(a: set<T>, b: set<T>)
    requires a <= b
    ensures |a| <= |b|
  {
    assert b == a + (b - a);
  }

  lemma FewNumbersNeverClear(us: seq<nat>, k: nat, limit: nat)
    requires |Numbers(us)| <= limit && k < |us|
    ensures !ClearedAt(us, k, limit)
  {
    var stretch := us[Epoch(us[..k], limit)..k + 1];
    assert forall u | u in stretch :: u in us;
    SubsetSize(Numbers(stretch), Numbers(us));
  }

  /** A stream with no more distinct numbers than the limit passes each of them at most once. */
  lemma FewNumbersPassOnce(us: seq<nat>, i: nat, j: nat, limit: nat)
    requires |Numbers(us)| <= limit
    requires i < j < |us| && us[i] == us[j]
    ensures !Fresh(us, j, limit)
  {
    hide ClearedAt, Fresh;
    FreshIff(us, j, limit);
    forall k | i <= k < j
      ensures !ClearedAt(us, k, limit)
    {
      FewNumbersNeverClear(us, k, limit);
    }
  }

  // ----- the guarantee is tight -----

  /** 0, 1, ..., n - 1. */
  function Count(n: nat): (us: seq<nat>)
    ensures |us| == n
  {
    seq(n, k => k)
  }

  function Below(n: nat): set<nat> {
    if n == 0 then {} else Below(n - 1) + {n - 1}
  }

  lemma {:induction false} BelowSize(n: nat)
    ensures |Below(n)| == n && forall k: nat :: k in Below(n) <==> k < n
  {
    if n > 0 {
      BelowSize(n - 1);
    }
  }

  lemma CheckNext(n: nat, limit: nat)
    requires n < limit
    ensures Check(Below(n), n, limit) == (Below(n + 1), false)
  {
    BelowSize(n);
    BelowSize(n + 1);
  }

  lemma {:induction false} SeenCount(us: seq<nat>, n: nat, limit: nat)
    requires n <= |us| && n <= limit && forall k | 0 <= k < n :: us[k] == k
    ensures After({}, us[..n], limit) == Below(n)
    decreases n
  {
    hide Check, After;
    if n > 0 {
      SeenCount(us, n - 1, limit);
      AfterNext(us, n - 1, limit);
      CheckNext(n - 1, limit);
    } else {
      AfterNone(limit);
    }
  }

  lemma AfterNone(limit: nat)
    ensures After({}, [], limit) == {}
  {
  }

  /**
   However large the limit, limit + 1 distinct numbers followed by the first of them let that one
   through twice: the set is cleared whole, not by its oldest half.
   */
  lemma RepeatAfterClear(limit: nat)
    ensures var us := Count(limit + 1) + [0];
            Fresh(us, 0, limit) && Fresh(us, limit + 1, limit) && us[0] == us[limit + 1]
  {
    var us := Count(limit + 1) + [0];
    SeenCount(us, limit, limit);
    AfterNext(us, limit, limit);
    BelowSize(limit);
    BelowSize(limit + 1);
    assert After({}, us[..limit + 1], limit) == {};
  }

  function Arrivals(us: seq<nat>): (arrivals: seq<Tracking.Arrival>)
    ensures |arrivals| == |us|
  {
    seq(|us|, k requires 0 <= k < |us| => Tracking.Arrival(us[k], true))
  }

  lemma {:induction false} CountAccepted(cfg: Tracking.Config, n: nat)
    ensures Tracking.Accepted(cfg, Tracking.Start(cfg), Arrivals(Count(n))) == Count(n)
  {
    hide Tracking.OnArrival;
    if n > 0 {
      CountAccepted(cfg, n - 1);
      var init := Arrivals(Count(n - 1));
      var a := Tracking.Arrival(n - 1, true);
      assert Arrivals(Count(n)) == init + [a];
      Tracking.AfterSnoc(cfg, Tracking.Start(cfg), init, a);
      Tracking.RejectedIff(cfg, init, a);
      assert Count(n) == Count(n - 1) + [n - 1];
    }
  }

  /** And the subscriber's window does not stop that stream unless it is larger than the limit. */
  lemma RepeatPassesWindow(cfg: Tracking.Config, limit: nat)
    requires cfg.window <= limit
    ensures var us := Count(limit + 1) + [0];
            Tracking.Accepted(cfg, Tracking.Start(cfg), Arrivals(us)) == us
  {
    hide Tracking.Accepted, Tracking.After;
    var init := Arrivals(Count(limit + 1));
    var a := Tracking.Arrival(0, true);
    assert Arrivals(Count(limit + 1) + [0]) == init + [a];
    CountAccepted(cfg, limit + 1);
    Tracking.AfterSnoc(cfg, Tracking.Start(cfg), init, a);
    Tracking.RejectedIff(cfg, init, a);
  }
}

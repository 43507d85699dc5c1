/**
 The breaker registry seen as a log. Every lock-protected section of every thread
 appends one event; a hold is named by the index of the event that granted it, and
 a breaker's value is what its own events make of a new breaker. `Legal` says what
 the registry can produce, under any interleaving and with any policy on each call:
 decisions are the ones the breaker's value dictates, each record settles a granted
 hold not settled before, and no reading for a key is earlier than that key's last
 record, which held its write lock. Decisions share the read lock, so the readings of
 two decisions with no record between them may be in either order.
 */
module BreakerLog {
  import opened Wrappers
  import opened CircuitBreaker

  datatype Event =
    | Granted(key: Key, decision: Decision, at: nat, policy: BreakerPolicy)
    | Recorded(key: Key, at: nat, policy: BreakerPolicy, ok: bool, hold: nat)

  type Log = seq<Event>

  function Step(b: Breaker, e: Event): Breaker {
    match e
    case Granted(_, _, at, p) => AfterDecision(b, at, p)
    case Recorded(_, at, p, ok, _) => AfterRecord(b, ok, at, p)
  }

  function BreakerOf(log: Log, k: Key): Breaker {
    if log == [] then NEW_BREAKER
    else
      var e := log[|log| - 1];
      var b := BreakerOf(log[..|log| - 1], k);
      if e.key == k then Step(b, e) else b
  }

  /** The clock reading of a key's last record. */
  function LastAt(log: Log, k: Key): nat {
    if log == [] then 0
    else if IsRecord(log[|log| - 1], k) then log[|log| - 1].at
    else LastAt(log[..|log| - 1], k)
  }

  predicate IsHold(log: Log, h: nat) {
    h < |log| && log[h].Granted? && log[h].decision != Skip
  }

  predicate Settles(e: Event, h: nat) {
    e.Recorded? && e.hold == h
  }

  predicate Outstanding(log: Log, h: nat) {
    IsHold(log, h) && forall i :: 0 <= i < |log| ==> !Settles(log[i], h)
  }

  predicate LegalNext(log: Log, e: Event) {
    LastAt(log, e.key) <= e.at &&
    match e
    case Granted(k, d, at, p) => d == Decide(BreakerOf(log, k), at, p)
    case Recorded(k, _, p, _, h) => Outstanding(log, h) && log[h].key == k && log[h].policy == p
  }

  predicate Legal(log: Log) {
    log == [] || (Legal(log[..|log| - 1]) && LegalNext(log[..|log| - 1], log[|log| - 1]))
  }

  predicate IsProbe(e: Event, k: Key) {
    e.Granted? && e.key == k && e.decision == Probe
  }

  predicate IsRecord(e: Event, k: Key) {
    e.Recorded? && e.key == k
  }

  /** Probe `i` on `k` was granted and the key has seen no record since. */
  predicate PendingProbe(log: Log, k: Key, i: nat) {
    i < |log| && IsProbe(log[i], k) && forall j :: i < j < |log| ==> !IsRecord(log[j], k)
  }

  // ---- unfolding one event ----

  lemma Snoc(log: Log, e: Event)
    ensures (log + [e])[..|log|] == log
    ensures Legal(log + [e]) <==> Legal(log) && LegalNext(log, e)
    ensures forall k :: BreakerOf(log + [e], k) ==
                        if e.key == k then Step(BreakerOf(log, k), e) else BreakerOf(log, k)
    ensures forall k :: LastAt(log + [e], k) == if IsRecord(e, k) then e.at else LastAt(log, k)
  {
    assert (log + [e])[..|log|] == log;
  }

  lemma {:induction false} LegalPrefix(log: Log, n: nat)
    requires Legal(log) && n <= |log|
    ensures Legal(log[..n])
    ensures n < |log| ==> LegalNext(log[..n], log[n])
    decreases |log|
  {
    if n == |log| {
      assert log[..n] == log;
    } else if n < |log| - 1 {
      var init := log[..|log| - 1];
      LegalPrefix(init, n);
      assert init[..n] == log[..n] && init[n] == log[n];
    }
  }

  /** Every record settles an earlier hold of its own key and policy, and no hold twice. */
  lemma {:induction false} RecordsMatchHolds(log: Log, i: nat)
    requires Legal(log) && i < |log| && log[i].Recorded?
    ensures log[i].hold < i && IsHold(log, log[i].hold)
    ensures log[log[i].hold].key == log[i].key && log[log[i].hold].policy == log[i].policy
    ensures forall j :: 0 <= j < |log| && Settles(log[j], log[i].hold) ==> j == i
  {
    LegalPrefix(log, i);
    var h := log[i].hold;
    forall j | 0 <= j < |log| && Settles(log[j], h)
      ensures j == i
    {
      LegalPrefix(log, j);
    }
  }

  /** No record is earlier than the one before it on its key. */
  lemma RecordsInOrder(log: Log, i: nat)
    requires Legal(log) && i < |log| && log[i].Recorded?
    ensures LastAt(log[..i], log[i].key) <= log[i].at
  {
    LegalPrefix(log, i);
  }

  // ---- the half-open probe ----

  /** The flag is set exactly while some granted probe has seen no record since, and only on an open breaker. */
  lemma {:induction false} ProbeFlag(log: Log, k: Key)
    requires Legal(log)
    ensures BreakerOf(log, k).probeInFlight ==> BreakerOf(log, k).openSince.Some?
    ensures BreakerOf(log, k).probeInFlight <==> exists i: nat :: PendingProbe(log, k, i)
  {
    if log != [] {
      var init, e := log[..|log| - 1], log[|log| - 1];
      ProbeFlag(init, k);
      if e.key != k || (e.Granted? && e.decision != Probe) {
        PendingUnchanged(init, e, k);
        assert log == init + [e];
      } else if e.Granted? {
        assert PendingProbe(log, k, |log| - 1);
      } else {
        assert IsRecord(log[|log| - 1], k);
      }
    }
  }

  lemma PendingUnchanged(log: Log, e: Event, k: Key)
    requires !IsProbe(e, k) && !IsRecord(e, k)
    ensures (exists i: nat :: PendingProbe(log, k, i)) <==> (exists i: nat :: PendingProbe(log + [e], k, i))
  {
    if i: nat :| PendingProbe(log, k, i) {
      assert PendingProbe(log + [e], k, i);
    }
    if i: nat :| PendingProbe(log + [e], k, i) {
      forall j | i < j < |log|
        ensures !IsRecord(log[j], k)
      {
        assert (log + [e])[j] == log[j];
      }
      assert PendingProbe(log, k, i);
    }
  }

  /** A pending probe's hold has not been settled: whoever holds it still owes the record. */
  lemma PendingIsOutstanding(log: Log, k: Key, i: nat)
    requires Legal(log) && PendingProbe(log, k, i)
    ensures Outstanding(log, i)
  {
    forall j | 0 <= j < |log|
      ensures !Settles(log[j], i)
    {
      if Settles(log[j], i) {
        RecordsMatchHolds(log, j);
      }
    }
  }

  /** `probe_in_flight` is set only if the key is open and a probe issued since its last record is outstanding. */
  lemma FlagMeansOutstandingProbe(log: Log, k: Key)
    requires Legal(log) && BreakerOf(log, k).probeInFlight
    ensures BreakerOf(log, k).openSince.Some?
    ensures exists i: nat :: PendingProbe(log, k, i) && Outstanding(log, i)
  {
    ProbeFlag(log, k);
    var i: nat :| PendingProbe(log, k, i);
    PendingIsOutstanding(log, k, i);
  }

  /** Two probe authorisations on one key are separated by a record on that key. */
  lemma ProbesSeparated(log: Log, k: Key, i: nat, j: nat)
    requires Legal(log) && i < j < |log| && IsProbe(log[i], k) && IsProbe(log[j], k)
    ensures exists m :: i < m < j && IsRecord(log[m], k)
  {
    LegalPrefix(log, j);
    ProbeFlag(log[..j], k);
    assert !PendingProbe(log[..j], k, i);
    var m :| i < m < j && IsRecord(log[..j][m], k);
    assert log[..j][m] == log[m];
  }

  /** A breaker opens at one of its records. */
  lemma {:induction false} OpenedByARecord(log: Log, k: Key)
    requires Legal(log) && BreakerOf(log, k).openSince.Some?
    ensures BreakerOf(log, k).openSince.value <= LastAt(log, k)
  {
    var init := log[..|log| - 1];
    if BreakerOf(init, k).openSince.Some? {
      OpenedByARecord(init, k);
    }
  }

  /**
   A key with no hold outstanding is not wedged: an enabled request is refused only while the cooldown
   runs, which is from the instant the breaker opened until the cooldown has been added to it.
   */
  lemma NotWedged(log: Log, k: Key, now: nat, p: BreakerPolicy)
    requires Legal(log)
    requires forall h: nat :: Outstanding(log, h) ==> log[h].key != k
    ensures Decide(BreakerOf(log, k), now, p) == Skip <==>
            && p.enabled && BreakerOf(log, k).openSince.Some?
            && now < BreakerOf(log, k).openSince.value + p.openCooldown && 0 < p.openCooldown
    ensures LastAt(log, k) <= now ==>
            (Decide(BreakerOf(log, k), now, p) == Skip <==>
             && p.enabled && BreakerOf(log, k).openSince.Some?
             && now < BreakerOf(log, k).openSince.value + p.openCooldown)
  {
    DecideInInstants(BreakerOf(log, k), now, p);
    if BreakerOf(log, k).probeInFlight {
      FlagMeansOutstandingProbe(log, k);
    }
    if BreakerOf(log, k).openSince.Some? {
      OpenedByARecord(log, k);
    }
  }

  /** A failure on an open breaker restarts its cooldown iff the cooldown is over, and otherwise leaves it running. */
  lemma FailureRestartsCooldown(log: Log, e: Event, k: Key)
    requires Legal(log + [e]) && IsRecord(e, k) && !e.ok && BreakerOf(log, k).openSince.Some?
    ensures var since := BreakerOf(log, k).openSince.value;
            && BreakerOf(log + [e], k).openSince ==
               Some(if since + e.policy.openCooldown <= e.at then e.at else since)
            && !BreakerOf(log + [e], k).probeInFlight
  {
    Snoc(log, e);
    OpenedByARecord(log, k);
  }

  /**
   The module documentation promises a single half-open probe. With a probe hold still
   outstanding, a request at or after the cooldown is granted a second one exactly when
   every probe so far has been followed by a record on the key (not necessarily its own).
   */
  lemma SecondProbeExactly(log: Log, k: Key, now: nat, p: BreakerPolicy, h: nat)
    requires Legal(log) && Outstanding(log, h) && IsProbe(log[h], k)
    requires p.enabled && BreakerOf(log, k).openSince.Some?
    requires BreakerOf(log, k).openSince.value + p.openCooldown <= now || p.openCooldown == 0
    ensures Decide(BreakerOf(log, k), now, p) == Probe <==>
            forall i :: 0 <= i < |log| && IsProbe(log[i], k) ==> exists j :: i < j < |log| && IsRecord(log[j], k)
  {
    ProbeFlag(log, k);
    DecideInInstants(BreakerOf(log, k), now, p);
    if BreakerOf(log, k).probeInFlight {
      var i: nat :| PendingProbe(log, k, i);
      assert IsProbe(log[i], k);
    } else {
      forall i | 0 <= i < |log| && IsProbe(log[i], k)
        ensures exists j :: i < j < |log| && IsRecord(log[j], k)
      {
        assert !PendingProbe(log, k, i);
      }
    }
  }

  const TRIGGER_HAPPY := BreakerPolicy(true, 50, 1, 60, 30)

  /** A run that ends with two probe holds outstanding on one key: a stale failure clears the flag in between. */
  function TwoProbes(k: Key): Log {
    [Granted(k, Allow, 0, TRIGGER_HAPPY),
     Granted(k, Allow, 0, TRIGGER_HAPPY),
     Recorded(k, 0, TRIGGER_HAPPY, false, 0),
     Granted(k, Probe, 30, TRIGGER_HAPPY),
     Recorded(k, 30, TRIGGER_HAPPY, false, 1),
     Granted(k, Probe, 60, TRIGGER_HAPPY)]
  }

  lemma TwoProbesOutstanding(k: Key)
    ensures Legal(TwoProbes(k))
    ensures Outstanding(TwoProbes(k), 3) && Outstanding(TwoProbes(k), 5)
    ensures IsProbe(TwoProbes(k)[3], k) && IsProbe(TwoProbes(k)[5], k)
  {
    var l := TwoProbes(k);
    FirstFailure(k);
    assert l[..4] == l[..3] + [l[3]] && l[..5] == l[..4] + [l[4]] && l == l[..5] + [l[5]];
    Snoc(l[..3], l[3]);
    Snoc(l[..4], l[4]);
    assert BreakerOf(l[..5], k).openSince == Some(30) && !BreakerOf(l[..5], k).probeInFlight;
    Snoc(l[..5], l[5]);
  }

  /** Two holds, and the failure of the first, which opens the breaker. */
  lemma FirstFailure(k: Key)
    ensures Legal(TwoProbes(k)[..3])
    ensures BreakerOf(TwoProbes(k)[..3], k) == Breaker([Sample(0, false)], Some(0), false)
    ensures LastAt(TwoProbes(k)[..3], k) == 0
  {
    var l := TwoProbes(k);
    var failure := [Sample(0, false)];
    assert l[..0] == [] && l[..1] == l[..0] + [l[0]] && l[..2] == l[..1] + [l[1]] && l[..3] == l[..2] + [l[2]];
    Snoc(l[..0], l[0]);
    Snoc(l[..1], l[1]);
    assert Outstanding(l[..2], 0);
    Snoc(l[..2], l[2]);
    assert [] + failure == failure && Failures(failure) == 1;
  }

  // ---- how long Open lasts ----

  /** The breaker is open after the first n events of a continuation. */
  predicate OpenAt(log: Log, tail: Log, k: Key, n: nat)
    requires n <= |tail|
  {
    BreakerOf(log + tail[..n], k).openSince.Some?
  }

  predicate ClosesAt(tail: Log, k: Key, i: nat) {
    i < |tail| && IsRecord(tail[i], k) && tail[i].ok
  }

  lemma OpenAtStep(log: Log, tail: Log, k: Key, n: nat)
    requires n < |tail| && OpenAt(log, tail, k, n)
    ensures OpenAt(log, tail, k, n + 1) <==> !ClosesAt(tail, k, n)
  {
    Snoc(log + tail[..n], tail[n]);
    assert log + tail[..n + 1] == (log + tail[..n]) + [tail[n]];
  }

  lemma {:induction false} OpenUpTo(log: Log, tail: Log, k: Key, n: nat)
    requires BreakerOf(log, k).openSince.Some? && n <= |tail|
    ensures (forall m: nat :: m <= n ==> OpenAt(log, tail, k, m)) <==> (forall i: nat :: i < n ==> !ClosesAt(tail, k, i))
  {
    if n == 0 {
      assert log + tail[..0] == log;
    } else {
      OpenUpTo(log, tail, k, n - 1);
      if OpenAt(log, tail, k, n - 1) {
        OpenAtStep(log, tail, k, n - 1);
      }
    }
  }

  /**
   An open breaker is open after every event of a continuation exactly if the continuation
   records no success on its key. Cooldowns play no part.
   */
  lemma OpenUntilSuccess(log: Log, tail: Log, k: Key)
    requires BreakerOf(log, k).openSince.Some?
    ensures (forall n: nat :: n <= |tail| ==> BreakerOf(log + tail[..n], k).openSince.Some?) <==>
            (forall i :: 0 <= i < |tail| && IsRecord(tail[i], k) ==> !tail[i].ok)
  {
    OpenUpTo(log, tail, k, |tail|);
    assert forall n: nat :: n <= |tail| ==> (OpenAt(log, tail, k, n) <==> BreakerOf(log + tail[..n], k).openSince.Some?);
    assert forall i: nat :: ClosesAt(tail, k, i) <==> i < |tail| && IsRecord(tail[i], k) && tail[i].ok;
  }

  /** A hold granted while the breaker was closed reports its success after the breaker has opened. */
  function LateSuccess(k: Key): Log {
    [Granted(k, Allow, 0, TRIGGER_HAPPY),
     Granted(k, Allow, 0, TRIGGER_HAPPY),
     Recorded(k, 0, TRIGGER_HAPPY, false, 0),
     Recorded(k, 1, TRIGGER_HAPPY, true, 1)]
  }

  /** The documentation lets an open breaker recover only after its cooldown; this legal run closes it at 1 of 30. */
  lemma LateSuccessCloses(k: Key)
    ensures Legal(LateSuccess(k))
    ensures BreakerOf(LateSuccess(k)[..3], k).openSince == Some(0)
    ensures LateSuccess(k)[3].at < 0 + TRIGGER_HAPPY.openCooldown
    ensures BreakerOf(LateSuccess(k), k).openSince == None
  {
    var l := LateSuccess(k);
    FirstFailure(k);
    assert l[..3] == TwoProbes(k)[..3] && l == l[..3] + [l[3]];
    assert Outstanding(l[..3], 1);
    Snoc(l[..3], l[3]);
  }
}

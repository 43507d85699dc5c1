/**
 What the incrementally evicted sample deque means. `Reference` keeps every sample of
 a key since the success that last closed it and evicts nothing; it applies the window
 as a filter and the trip test as an exact ratio. The code's deque is shown to be that
 filter after every event, for arbitrary (even changing) policies.
 */
module SlidingWindow {
  import opened Wrappers
  import opened Sequences
  import opened CircuitBreaker
  import opened BreakerLog

  /** `horizon` is the latest window start any record has imposed so far. */
  datatype Reference = Reference(open: Option<nat>, history: seq<Sample>, horizon: nat)

  function WindowStart(now: nat, window: nat): nat {
    if window <= now then now - window else 0
  }

  function Max(a: nat, b: nat): nat {
    if a < b then b else a
  }

  function Within(history: seq<Sample>, start: nat): seq<Sample> {
    if history == [] then []
    else
      var s := history[|history| - 1];
      Within(history[..|history| - 1], start) + (if start <= s.at then [s] else [])
  }

  predicate WindowTrips(window: seq<Sample>, p: BreakerPolicy) {
    |window| >= p.minRequests && 100 * Failures(window) >= p.failureThresholdPct * |window|
  }

  function RefStep(r: Reference, e: Event): Reference
    requires e.Recorded?
  {
    var history := r.history + [Sample(e.at, e.ok)];
    var horizon := Max(r.horizon, WindowStart(e.at, e.policy.window));
    if r.open.Some? then
      if e.ok then Reference(None, [Sample(e.at, true)], horizon)
      else if r.open.value + e.policy.openCooldown <= e.at || e.policy.openCooldown == 0 then Reference(Some(e.at), history, horizon)
      else Reference(r.open, history, horizon)
    else Reference(if WindowTrips(Within(history, horizon), e.policy) then Some(e.at) else None, history, horizon)
  }

  function ReferenceOf(log: Log, k: Key): Reference {
    if log == [] then Reference(None, [], 0)
    else
      var r := ReferenceOf(log[..|log| - 1], k);
      if IsRecord(log[|log| - 1], k) then RefStep(r, log[|log| - 1]) else r
  }

  /** Every sample ever recorded for a key. */
  function SamplesOf(log: Log, k: Key): seq<Sample> {
    if log == [] then []
    else
      var e := log[|log| - 1];
      SamplesOf(log[..|log| - 1], k) + (if IsRecord(e, k) then [Sample(e.at, e.ok)] else [])
  }

  predicate Sorted(samples: seq<Sample>) {
    forall i, j :: 0 <= i < j < |samples| ==> samples[i].at <= samples[j].at
  }

  predicate UpTo(samples: seq<Sample>, now: nat) {
    forall i :: 0 <= i < |samples| ==> samples[i].at <= now
  }

  // ---- popping the front of a sorted deque is filtering it ----

  lemma WithinSnoc(h: seq<Sample>, s: Sample, start: nat)
    ensures Within(h + [s], start) == Within(h, start) + (if start <= s.at then [s] else [])
  {
    assert (h + [s])[..|h|] == h;
  }

  lemma {:induction false} WithinCons(s: Sample, h: seq<Sample>, start: nat)
    ensures Within([s] + h, start) == (if start <= s.at then [s] else []) + Within(h, start)
  {
    if h == [] {
      assert [s] + h == [] + [s];
      WithinSnoc([], s, start);
    } else {
      var init, last := h[..|h| - 1], h[|h| - 1];
      WithinCons(s, init, start);
      WithinSnoc([s] + init, last, start);
      WithinSnoc(init, last, start);
      assert init + [last] == h && ([s] + init) + [last] == [s] + h;
      Associative(if start <= s.at then [s] else [], Within(init, start), if start <= last.at then [last] else []);
    }
  }

  lemma {:induction false} WithinAll(h: seq<Sample>, start: nat)
    requires forall i :: 0 <= i < |h| ==> start <= h[i].at
    ensures Within(h, start) == h
  {
    if h != [] {
      WithinAll(h[..|h| - 1], start);
    }
  }

  lemma {:induction false} WithinTwice(h: seq<Sample>, first: nat, second: nat)
    ensures Within(Within(h, first), second) == Within(h, Max(first, second))
  {
    if h != [] {
      WithinTwice(h[..|h| - 1], first, second);
      var kept := Within(h[..|h| - 1], first);
      WithinSnoc(kept, h[|h| - 1], second);
      assert kept + [] == kept;
    }
  }

  lemma {:induction false} WithinSorted(h: seq<Sample>, start: nat, bound: nat)
    requires Sorted(h) && UpTo(h, bound)
    ensures Sorted(Within(h, start)) && UpTo(Within(h, start), bound)
  {
    if h != [] {
      WithinSorted(h[..|h| - 1], start, h[|h| - 1].at);
    }
  }

  lemma {:induction false} DropStaleIsFilter(h: seq<Sample>, cutoff: nat)
    requires Sorted(h)
    ensures DropStale(h, cutoff) == Within(h, cutoff)
  {
    if h != [] {
      WithinCons(h[0], h[1..], cutoff);
      assert [h[0]] + h[1..] == h;
      if h[0].at < cutoff {
        DropStaleIsFilter(h[1..], cutoff);
      } else {
        WithinAll(h, cutoff);
      }
    }
  }

  /** Evicting from a deque that is already a filter of the history filters the history further. */
  lemma EvictIsFilter(h: seq<Sample>, kept: seq<Sample>, horizon: nat, bound: nat, now: nat, p: BreakerPolicy)
    requires Sorted(h) && UpTo(h, bound) && kept == Within(h, horizon)
    ensures Evict(kept, now, p) == Within(h, Max(horizon, WindowStart(now, p.window)))
  {
    var start := WindowStart(now, p.window);
    if p.window <= now {
      DropFromFilter(h, kept, horizon, bound, start);
    } else {
      assert Max(horizon, start) == horizon;
    }
  }

  lemma DropFromFilter(h: seq<Sample>, kept: seq<Sample>, horizon: nat, bound: nat, cutoff: nat)
    requires Sorted(h) && UpTo(h, bound) && kept == Within(h, horizon)
    ensures DropStale(kept, cutoff) == Within(h, Max(horizon, cutoff))
  {
    WithinSorted(h, horizon, bound);
    DropStaleIsFilter(kept, cutoff);
    WithinTwice(h, horizon, cutoff);
  }

  lemma TripsAgree(window: seq<Sample>, p: BreakerPolicy)
    requires window != []
    ensures Trips(window, p) <==> WindowTrips(window, p)
  {
    TripsIsRatio(window, p);
  }

  // ---- the refinement ----

  ghost predicate Refines(log: Log, k: Key) {
    var b, r := BreakerOf(log, k), ReferenceOf(log, k);
    && b.samples == Within(r.history, r.horizon)
    && b.openSince == r.open
    && Sorted(r.history) && UpTo(r.history, LastAt(log, k)) && r.horizon <= LastAt(log, k)
  }

  /** The deque is the window filter of the full history, and the open state is the reference's, after every event. */
  lemma {:induction false} DequeIsWindow(log: Log, k: Key)
    requires Legal(log)
    ensures Refines(log, k)
  {
    if log != [] {
      var init, e := log[..|log| - 1], log[|log| - 1];
      DequeIsWindow(init, k);
      if IsRecord(e, k) {
        RecordRefines(init, e, k);
        assert log == init + [e];
      }
    }
  }

  lemma RecordRefines(log: Log, e: Event, k: Key)
    requires Refines(log, k) && IsRecord(e, k) && LastAt(log, k) <= e.at
    ensures Refines(log + [e], k)
  {
    var b, r := BreakerOf(log, k), ReferenceOf(log, k);
    Snoc(log, e);
    assert ReferenceOf(log + [e], k) == RefStep(r, e);
    StepRefines(b, r, e, LastAt(log, k));
  }

  lemma StepRefines(b: Breaker, r: Reference, e: Event, bound: nat)
    requires b.samples == Within(r.history, r.horizon) && b.openSince == r.open
    requires Sorted(r.history) && UpTo(r.history, bound) && r.horizon <= bound
    requires e.Recorded? && bound <= e.at
    ensures Step(b, e).samples == Within(RefStep(r, e).history, RefStep(r, e).horizon)
    ensures Step(b, e).openSince == RefStep(r, e).open
    ensures Sorted(RefStep(r, e).history) && UpTo(RefStep(r, e).history, e.at) && RefStep(r, e).horizon <= e.at
  {
    WindowStep(b, r, Sample(e.at, e.ok), bound, e.policy);
    HistoryStep(r, e, bound);
    if r.open.None? {
      ClosedStep(b, e, r.history + [Sample(e.at, e.ok)], Max(r.horizon, WindowStart(e.at, e.policy.window)));
    } else {
      OpenStep(b, r, e);
    }
  }

  /** A record on an open breaker: a success restarts the history with itself, a failure extends it. */
  lemma OpenStep(b: Breaker, r: Reference, e: Event)
    requires e.Recorded? && b.openSince == r.open && r.open.Some? && r.horizon <= e.at
    requires Evict(b.samples, e.at, e.policy) + [Sample(e.at, e.ok)] ==
             Within(r.history + [Sample(e.at, e.ok)], Max(r.horizon, WindowStart(e.at, e.policy.window)))
    ensures Step(b, e).samples == Within(RefStep(r, e).history, RefStep(r, e).horizon)
    ensures Step(b, e).openSince == RefStep(r, e).open
  {
    if e.ok {
      WithinOne(Sample(e.at, true), RefStep(r, e).horizon);
    }
  }

  lemma WithinOne(s: Sample, start: nat)
    requires start <= s.at
    ensures Within([s], start) == [s]
  {
    assert [] + [s] == [s];
    WithinSnoc([], s, start);
  }

  lemma HistoryStep(r: Reference, e: Event, bound: nat)
    requires Sorted(r.history) && UpTo(r.history, bound) && r.horizon <= bound
    requires e.Recorded? && bound <= e.at
    ensures Sorted(RefStep(r, e).history) && UpTo(RefStep(r, e).history, e.at) && RefStep(r, e).horizon <= e.at
  {
    var history := r.history + [Sample(e.at, e.ok)];
    assert Sorted(history) && UpTo(history, e.at);
  }

  /** A record on a closed breaker whose evicted deque is the window of `history`. */
  lemma ClosedStep(b: Breaker, e: Event, history: seq<Sample>, start: nat)
    requires e.Recorded? && b.openSince == None
    requires Evict(b.samples, e.at, e.policy) + [Sample(e.at, e.ok)] == Within(history, start)
    ensures Step(b, e).samples == Within(history, start)
    ensures Step(b, e).openSince == if WindowTrips(Within(history, start), e.policy) then Some(e.at) else None
  {
    var window := Evict(b.samples, e.at, e.policy) + [Sample(e.at, e.ok)];
    assert window[|window| - 1] == Sample(e.at, e.ok);
    TripsAgree(window, e.policy);
  }

  lemma WindowStep(b: Breaker, r: Reference, s: Sample, bound: nat, p: BreakerPolicy)
    requires b.samples == Within(r.history, r.horizon)
    requires Sorted(r.history) && UpTo(r.history, bound) && r.horizon <= bound <= s.at
    ensures Evict(b.samples, s.at, p) + [s] ==
            Within(r.history + [s], Max(r.horizon, WindowStart(s.at, p.window)))
  {
    var horizon := Max(r.horizon, WindowStart(s.at, p.window));
    EvictIsFilter(r.history, b.samples, r.horizon, bound, s.at, p);
    WithinSnoc(r.history, s, horizon);
  }

  /** The record with which an open breaker last closed, counting the key's records; 0 if it never did. */
  function LastClosing(log: Log, k: Key): (n: nat)
    ensures n <= |SamplesOf(log, k)|
  {
    if log == [] then 0
    else
      var init, e := log[..|log| - 1], log[|log| - 1];
      if IsRecord(e, k) && e.ok && BreakerOf(init, k).openSince.Some? then |SamplesOf(init, k)|
      else LastClosing(init, k)
  }

  /** The reference history is the full record history from the last closing success, inclusive. */
  lemma {:induction false} HistoryIsSuffix(log: Log, k: Key)
    requires Legal(log)
    ensures ReferenceOf(log, k).history == SamplesOf(log, k)[LastClosing(log, k)..]
  {
    if log != [] {
      var init, e := log[..|log| - 1], log[|log| - 1];
      HistoryIsSuffix(init, k);
      DequeIsWindow(init, k);
      if IsRecord(e, k) {
        DropOfAppend(SamplesOf(init, k), Sample(e.at, e.ok), LastClosing(init, k));
      } else {
        assert SamplesOf(init, k) + [] == SamplesOf(init, k);
      }
    }
  }

  lemma DropOfAppend(samples: seq<Sample>, s: Sample, n: nat)
    requires n <= |samples|
    ensures (samples + [s])[n..] == samples[n..] + [s]
    ensures (samples + [s])[|samples|..] == [s]
  {
  }

  // ---- one fixed window ----

  lemma {:induction false} FixedHorizon(log: Log, k: Key, window: nat)
    requires Legal(log)
    requires forall i :: 0 <= i < |log| && IsRecord(log[i], k) ==> log[i].policy.window == window
    ensures ReferenceOf(log, k).horizon == WindowStart(LastAt(log, k), window)
  {
    if log != [] {
      var init := log[..|log| - 1];
      assert forall i :: 0 <= i < |init| ==> init[i] == log[i];
      FixedHorizon(init, k, window);
    }
  }

  lemma {:induction false} WithinIs(h: seq<Sample>, start: nat, s: Sample)
    ensures s in Within(h, start) <==> s in h && start <= s.at
  {
    if h != [] {
      var init, last := h[..|h| - 1], h[|h| - 1];
      WithinIs(init, start, s);
      WithinSnoc(init, last, start);
      assert init + [last] == h;
    }
  }

  /**
   What the deque holds, for one window length per key: of the key's records since its last closing
   success, exactly those no older than the window when the last record was made.
   */
  lemma DequeHoldsTheWindow(log: Log, k: Key, window: nat, s: Sample)
    requires Legal(log)
    requires forall i :: 0 <= i < |log| && IsRecord(log[i], k) ==> log[i].policy.window == window
    ensures s in BreakerOf(log, k).samples <==>
            s in SamplesOf(log, k)[LastClosing(log, k)..] && LastAt(log, k) <= s.at + window
  {
    DequeIsWindow(log, k);
    FixedHorizon(log, k, window);
    HistoryIsSuffix(log, k);
    WithinIs(ReferenceOf(log, k).history, ReferenceOf(log, k).horizon, s);
  }

  /**
   The rule the breaker follows, for one window length per key: after a record at time `t` on a
   closed breaker, the breaker is open iff the samples of the last `window` before `t` (since the
   last closing success, inclusive) number at least `min_requests` and fail at the threshold rate
   or above.
   */
  lemma ClosedTripsIffWindowFails(log: Log, e: Event, k: Key)
    requires Legal(log + [e]) && IsRecord(e, k)
    requires BreakerOf(log, k).openSince.None?
    requires forall i :: 0 <= i < |log| && IsRecord(log[i], k) ==> log[i].policy.window == e.policy.window
    ensures var after := BreakerOf(log + [e], k);
            var window := Within(SamplesOf(log, k)[LastClosing(log, k)..] + [Sample(e.at, e.ok)],
                                 WindowStart(e.at, e.policy.window));
            after.samples == window &&
            after.openSince ==
              if |window| >= e.policy.minRequests && 100 * Failures(window) >= e.policy.failureThresholdPct * |window|
              then Some(e.at) else None
  {
    Snoc(log, e);
    DequeIsWindow(log, k);
    FixedHorizon(log, k, e.policy.window);
    HistoryIsSuffix(log, k);
    ClosedWindow(BreakerOf(log, k), ReferenceOf(log, k), e, SamplesOf(log, k)[LastClosing(log, k)..], LastAt(log, k));
  }

  lemma ClosedWindow(b: Breaker, r: Reference, e: Event, history: seq<Sample>, bound: nat)
    requires e.Recorded? && b.openSince == None && b.samples == Within(r.history, r.horizon)
    requires Sorted(r.history) && UpTo(r.history, bound) && r.horizon <= bound <= e.at
    requires history == r.history && r.horizon == WindowStart(bound, e.policy.window)
    ensures var window := Within(history + [Sample(e.at, e.ok)], WindowStart(e.at, e.policy.window));
            && Step(b, e).samples == window
            && Step(b, e).openSince == if WindowTrips(window, e.policy) then Some(e.at) else None
  {
    WindowStep(b, r, Sample(e.at, e.ok), bound, e.policy);
    ClosedStep(b, e, history + [Sample(e.at, e.ok)], WindowStart(e.at, e.policy.window));
  }
}

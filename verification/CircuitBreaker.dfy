/**
 One circuit breaker: the mutable state behind a registry entry, and the two
 operations that run under its lock. `AfterRecord`, `Decide` and `AfterDecision`
 are the value-level specification that the class is proved against; everything
 about whole runs is proved about those functions in `BreakerLog` and
 `SlidingWindow`.

 Instants are naturals (milliseconds since an arbitrary epoch).
 */
module CircuitBreaker {
  import opened Wrappers

  datatype Key = Key(provider: string, model: string)

  datatype BreakerPolicy = BreakerPolicy(
    enabled: bool,
    failureThresholdPct: nat,
    minRequests: nat,
    window: nat,
    openCooldown: nat)

  datatype Sample = Sample(at: nat, ok: bool)

  datatype Decision = Allow | Skip | Probe

  /** The value of one breaker: sample deque (front first), opening time, probe flag. */
  datatype Breaker = Breaker(samples: seq<Sample>, openSince: Option<nat>, probeInFlight: bool)

  const NEW_BREAKER := Breaker([], None, false)

  /** `Instant::duration_since`, which saturates at zero. */
  function Elapsed(now: nat, earlier: nat): nat {
    if earlier <= now then now - earlier else 0
  }

  /** What is left of the deque once stale samples are popped off its front. */
  function DropStale(samples: seq<Sample>, cutoff: nat): (kept: seq<Sample>)
    ensures |kept| <= |samples| && (kept != [] ==> cutoff <= kept[0].at)
  {
    if samples != [] && samples[0].at < cutoff then DropStale(samples[1..], cutoff) else samples
  }

  function Failures(samples: seq<Sample>): (n: nat)
    ensures n <= |samples|
  {
    if samples == [] then 0
    else Failures(samples[..|samples| - 1]) + (if samples[|samples| - 1].ok then 0 else 1)
  }

  /** The trip condition, with the integer division the code uses. */
  predicate Trips(samples: seq<Sample>, p: BreakerPolicy) {
    |samples| >= p.minRequests && samples != [] &&
    Failures(samples) * 100 / |samples| >= p.failureThresholdPct
  }

  /** No eviction at all while the window reaches back before the epoch. */
  function Evict(samples: seq<Sample>, now: nat, p: BreakerPolicy): seq<Sample> {
    if p.window <= now then DropStale(samples, now - p.window) else samples
  }

  function AfterRecord(b: Breaker, ok: bool, now: nat, p: BreakerPolicy): Breaker {
    var samples := Evict(b.samples, now, p) + [Sample(now, ok)];
    match b.openSince
    case Some(since) =>
      if ok then Breaker([Sample(now, true)], None, false)
      else if Elapsed(now, since) >= p.openCooldown then Breaker(samples, Some(now), false)
      else Breaker(samples, Some(since), false)
    case None =>
      Breaker(samples, if Trips(samples, p) then Some(now) else None, b.probeInFlight)
  }

  function Decide(b: Breaker, now: nat, p: BreakerPolicy): Decision {
    if !p.enabled || b.openSince.None? then Allow
    else if Elapsed(now, b.openSince.value) >= p.openCooldown && !b.probeInFlight then Probe
    else Skip
  }

  function AfterDecision(b: Breaker, now: nat, p: BreakerPolicy): Breaker {
    if Decide(b, now, p) == Probe then b.(probeInFlight := true) else b
  }

  /**
   The decision in instants: an enabled breaker that has been open since s is probed only from
   s plus the cooldown on. (A zero cooldown is over at once, even by a clock that reads before s.)
   */
  lemma DecideInInstants(b: Breaker, now: nat, p: BreakerPolicy)
    ensures Decide(b, now, p) == Allow <==> !p.enabled || b.openSince.None?
    ensures Decide(b, now, p) == Probe <==>
            && p.enabled && b.openSince.Some? && !b.probeInFlight
            && (b.openSince.value + p.openCooldown <= now || p.openCooldown == 0)
    ensures AfterDecision(b, now, p).probeInFlight <==> b.probeInFlight || Decide(b, now, p) == Probe
    ensures AfterDecision(b, now, p).samples == b.samples && AfterDecision(b, now, p).openSince == b.openSince
  {
  }

  /** The failures of a window are its failed samples, counted. */
  lemma {:induction false} FailuresCount(samples: seq<Sample>)
    ensures Failures(samples) == |set i | 0 <= i < |samples| && !samples[i].ok|
  {
    if samples != [] {
      var n := |samples| - 1;
      FailuresCount(samples[..n]);
      var before := set i | 0 <= i < n && !samples[..n][i].ok;
      assert before == set i | 0 <= i < n && !samples[i].ok;
      if samples[n].ok {
        assert (set i | 0 <= i <= n && !samples[i].ok) == before;
      } else {
        assert (set i | 0 <= i <= n && !samples[i].ok) == before + {n};
      }
      assert (set i | 0 <= i <= n && !samples[i].ok) == set i | 0 <= i < |samples| && !samples[i].ok;
    }
  }

  /** The integer-division test is the exact ratio test. */
  lemma TripsIsRatio(samples: seq<Sample>, p: BreakerPolicy)
    requires samples != []
    ensures Trips(samples, p) <==>
            |samples| >= p.minRequests && 100 * Failures(samples) >= p.failureThresholdPct * |samples|
  {
    FloorIsRatio(Failures(samples) * 100, |samples|, p.failureThresholdPct);
  }

  /** The module documentation trips when the failure rate exceeds the threshold. */
  predicate TripsAsDocumented(samples: seq<Sample>, p: BreakerPolicy) {
    |samples| >= p.minRequests && 100 * Failures(samples) > p.failureThresholdPct * |samples|
  }

  /** The code trips at the threshold too: the two rules agree except where the rate is exactly the threshold. */
  lemma TripsAsDocumentedIff(samples: seq<Sample>, p: BreakerPolicy)
    requires samples != []
    ensures (Trips(samples, p) <==> TripsAsDocumented(samples, p)) <==>
            !(|samples| >= p.minRequests && 100 * Failures(samples) == p.failureThresholdPct * |samples|)
  {
    TripsIsRatio(samples, p);
  }

  lemma TripsAtTheThreshold()
    ensures var samples, p := [Sample(0, false), Sample(0, true)], BreakerPolicy(true, 50, 2, 60, 30);
            Trips(samples, p) && !TripsAsDocumented(samples, p)
  {
    var samples := [Sample(0, false), Sample(0, true)];
    assert samples[..1] == [Sample(0, false)];
    assert Failures(samples[..1]) == 1 + Failures([]);
    assert Failures(samples) == 1;
  }

  lemma FloorIsRatio(a: nat, n: nat, t: nat)
    requires 0 < n
    ensures a / n >= t <==> a >= t * n
  {
    assert a == (a / n) * n + a % n;
    if a / n >= t {
      assert (a / n) * n >= t * n by { MulMono(t, a / n, n); }
    } else {
      assert (a / n + 1) * n <= t * n by { MulMono(a / n + 1, t, n); }
    }
  }

  lemma MulMono(x: nat, y: nat, n: nat)
    requires x <= y
    ensures x * n <= y * n
  {
  }

  /** Only samples at the front are dropped. */
  lemma {:induction false} DropStaleIsSuffix(samples: seq<Sample>, cutoff: nat)
    ensures DropStale(samples, cutoff) == samples[|samples| - |DropStale(samples, cutoff)|..]
    ensures forall i :: 0 <= i < |samples| - |DropStale(samples, cutoff)| ==> samples[i].at < cutoff
  {
    if samples != [] && samples[0].at < cutoff {
      DropStaleIsSuffix(samples[1..], cutoff);
    }
  }

  lemma DropStaleStep(samples: seq<Sample>, rest: seq<Sample>, cutoff: nat)
    requires rest != [] && rest[0].at < cutoff
    requires DropStale(samples, cutoff) == DropStale(rest, cutoff)
    ensures DropStale(samples, cutoff) == DropStale(rest[1..], cutoff)
  {
  }

  lemma FailuresAppend(samples: seq<Sample>, n: nat)
    requires n < |samples|
    ensures Failures(samples[..n + 1]) == Failures(samples[..n]) + (if samples[n].ok then 0 else 1)
  {
    assert samples[..n + 1][..n] == samples[..n];
  }

  /** The lock-protected record. */
  class BreakerState {
    var samples: seq<Sample>
    var openSince: Option<nat>
    var probeInFlight: bool

    function Value(): Breaker
      reads this
    {
      Breaker(samples, openSince, probeInFlight)
    }

    constructor ()
      ensures Value() == NEW_BREAKER
    {
      samples, openSince, probeInFlight := [], None, false;
    }

    method Record(succeeded: bool, now: nat, policy: BreakerPolicy)
      modifies this
      ensures Value() == AfterRecord(old(Value()), succeeded, now, policy)
    {
      EvictStale(now, policy);
      samples := samples + [Sample(now, succeeded)];

      if openSince.Some? {
        if succeeded {
          openSince := None;
          samples := [Sample(now, true)];
        } else if Elapsed(now, openSince.value) >= policy.openCooldown {
          openSince := Some(now);
        }
        probeInFlight := false;
        return;
      }

      var tripped := TripCondition(policy);
      if tripped {
        openSince := Some(now);
      }
    }

    /** The pop-front loop at the head of `record`. */
    method EvictStale(now: nat, policy: BreakerPolicy)
      modifies this`samples
      ensures samples == Evict(old(samples), now, policy)
    {
      ghost var before := samples;
      if policy.window <= now {
        var cutoff := now - policy.window;
        while samples != [] && samples[0].at < cutoff
          invariant DropStale(before, cutoff) == DropStale(samples, cutoff)
          decreases |samples|
        {
          DropStaleStep(before, samples, cutoff);
          samples := samples[1..];
        }
      }
    }

    /** The closed-state re-evaluation at the tail of `record`. */
    method TripCondition(policy: BreakerPolicy) returns (tripped: bool)
      requires samples != []
      ensures tripped <==> Trips(samples, policy)
    {
      var total := |samples|;
      if total < policy.minRequests {
        return false;
      }
      var failures := CountFailures();
      var pct := failures * 100 / total;
      return pct >= policy.failureThresholdPct;
    }

    method CountFailures() returns (n: nat)
      ensures n == Failures(samples)
    {
      n := 0;
      for i := 0 to |samples|
        invariant n == Failures(samples[..i])
      {
        FailuresAppend(samples, i);
        if !samples[i].ok {
          n := n + 1;
        }
      }
      assert samples[..|samples|] == samples;
    }

    /** The compare-exchange on the probe flag is one atomic step. */
    method Decision(now: nat, policy: BreakerPolicy) returns (d: Decision)
      modifies this`probeInFlight
      ensures d == Decide(old(Value()), now, policy)
      ensures d == Allow <==> !policy.enabled || openSince.None?
      ensures d == Probe <==>
              && policy.enabled && openSince.Some? && !old(probeInFlight)
              && (openSince.value + policy.openCooldown <= now || policy.openCooldown == 0)
      ensures probeInFlight <==> old(probeInFlight) || d == Probe
      ensures Value() == AfterDecision(old(Value()), now, policy)
    {
      if !policy.enabled {
        return Allow;
      }
      match openSince
      case None => return Allow;
      case Some(since) =>
        if Elapsed(now, since) >= policy.openCooldown {
          if !probeInFlight {
            probeInFlight := true;
            return Probe;
          }
          return Skip;
        }
        return Skip;
    }
  }
}

/**
 The shared registry and the RAII hold. The registry's ghost `log` is the history of
 its lock-protected sections; `Valid` says that the history is legal and that every
 breaker object holds exactly the value its own events make of a new breaker. All the
 theorems of `BreakerLog` and `SlidingWindow` therefore hold of any reachable registry.
 */
module Registry {
  import opened Wrappers
  import opened CircuitBreaker
  import opened BreakerLog

  /** The monotone clock; each reading may find that any amount of time has passed. */
  class Clock {
    var now: nat

    constructor ()
    {
      now := 0;
    }

    method Now() returns (t: nat)
      modifies this
      ensures t == now && old(now) <= now
    {
      var passed :| 0 <= passed;
      now := now + passed;
      return now;
    }
  }

  class BreakerRegistry {
    var breakers: map<Key, BreakerState>
    const clock: Clock
    ghost var log: Log

    ghost function Repr(): set<object>
      reads this
    {
      {this, clock} + breakers.Values
    }

    /** The value of a key's breaker; a key without an entry behaves like a new one. */
    function Current(k: Key): Breaker
      reads this, breakers.Values
    {
      if k in breakers then breakers[k].Value() else NEW_BREAKER
    }

    ghost predicate Valid()
      reads this, clock, breakers.Values
    {
      && Legal(log)
      && (forall k, k' :: k in breakers && k' in breakers && breakers[k] == breakers[k'] ==> k == k')
      && (forall k :: BreakerOf(log, k) == Current(k))
      && (forall k :: LastAt(log, k) <= clock.now)
    }

    constructor (clock: Clock)
      ensures Valid() && log == [] && this.clock == clock && fresh(Repr() - {clock})
    {
      this.clock := clock;
      breakers := map[];
      log := [];
    }

    /** An existing entry is returned as it is and never replaced; otherwise one new breaker is inserted. */
    method GetOrCreate(k: Key) returns (s: BreakerState)
      requires Valid()
      modifies this`breakers
      ensures Valid() && k in breakers && s == breakers[k]
      ensures breakers.Keys == old(breakers.Keys) + {k}
      ensures forall k' :: k' in old(breakers) ==> breakers[k'] == old(breakers)[k']
      ensures k !in old(breakers) ==> fresh(s)
    {
      if k in breakers {
        return breakers[k];
      }
      s := new BreakerState();
      breakers := breakers[k := s];
    }

    /** The end of a lock-protected section: the event is logged once its breaker has taken the step. */
    ghost method Commit(e: Event)
      requires Legal(log) && LegalNext(log, e) && e.at <= clock.now
      requires forall k, k' :: k in breakers && k' in breakers && breakers[k] == breakers[k'] ==> k == k'
      requires Current(e.key) == Step(BreakerOf(log, e.key), e)
      requires forall k :: k != e.key ==> Current(k) == BreakerOf(log, k)
      requires forall k :: LastAt(log, k) <= clock.now
      modifies this`log
      ensures Valid() && log == old(log) + [e]
    {
      Snoc(log, e);
      log := log + [e];
    }

    method Decide(k: Key, policy: BreakerPolicy) returns (d: Decision)
      requires Valid()
      modifies Repr()
      ensures Valid() && fresh(Repr() - old(Repr()))
      ensures log == old(log) + [Granted(k, d, clock.now, policy)]
      ensures forall k' :: k' in old(breakers) ==> k' in breakers && breakers[k'] == old(breakers)[k']
    {
      var state := GetOrCreate(k);
      var now := clock.Now();
      d := state.Decision(now, policy);
      Commit(Granted(k, d, now, policy));
    }

    method Record(k: Key, succeeded: bool, policy: BreakerPolicy, ghost hold: nat)
      requires Valid()
      requires Outstanding(log, hold) && log[hold].key == k && log[hold].policy == policy
      modifies Repr()
      ensures Valid() && fresh(Repr() - old(Repr()))
      ensures log == old(log) + [Recorded(k, clock.now, policy, succeeded, hold)]
      ensures forall k' :: k' in old(breakers) ==> k' in breakers && breakers[k'] == old(breakers)[k']
    {
      var state := GetOrCreate(k);
      var now := clock.Now();
      state.Record(succeeded, now, policy);
      Commit(Recorded(k, now, policy, succeeded, hold));
    }

    /** A hold unless the breaker says Skip. */
    method TryHold(k: Key, policy: BreakerPolicy) returns (hold: BreakerHold?)
      requires Valid()
      modifies Repr()
      ensures Valid() && fresh(Repr() - old(Repr()))
      ensures |log| == |old(log)| + 1 && old(log) <= log
      ensures log[|old(log)|].Granted? && log[|old(log)|].key == k && log[|old(log)|].policy == policy
      ensures hold == null <==> log[|old(log)|].decision == Skip
      ensures hold != null ==> fresh(hold) && hold.registry == this && hold.Live() && hold.grant == |old(log)|
                               && hold.key == k && hold.policy == policy
    {
      var d := Decide(k, policy);
      if d == Skip {
        return null;
      }
      assert forall i :: 0 <= i < |old(log)| ==> !Settles(log[i], |old(log)|) by {
        forall i | 0 <= i < |old(log)|
          ensures !Settles(log[i], |old(log)|)
        {
          if log[i].Recorded? {
            RecordsMatchHolds(log, i);
          }
        }
      }
      hold := new BreakerHold(this, k, policy, |log| - 1);
    }
  }

  /** Consumed at most once; dropping it unconsumed records a failure. */
  class BreakerHold {
    const registry: BreakerRegistry
    const key: Key
    const policy: BreakerPolicy
    var consumed: bool
    ghost const grant: nat

    /** This hold still owes its record. */
    ghost predicate Live()
      reads this, registry
    {
      && !consumed
      && Outstanding(registry.log, grant)
      && registry.log[grant].key == key && registry.log[grant].policy == policy
    }

    constructor (registry: BreakerRegistry, key: Key, policy: BreakerPolicy, ghost grant: nat)
      ensures this.registry == registry && this.key == key && this.policy == policy
      ensures this.grant == grant && !consumed
    {
      this.registry, this.key, this.policy, this.grant := registry, key, policy, grant;
      consumed := false;
    }

    /** Takes the hold by value: the record of the outcome, then the drop, which must add nothing. */
    method Consume(succeeded: bool)
      requires registry.Valid() && Live()
      modifies this, registry.Repr()
      ensures registry.Valid() && fresh(registry.Repr() - old(registry.Repr()))
      ensures registry.log == old(registry.log) + [Recorded(key, registry.clock.now, policy, succeeded, grant)]
    {
      if !consumed {
        registry.Record(key, succeeded, policy, grant);
        consumed := true;
      }
      Drop();
    }

    method Drop()
      requires registry.Valid() && (consumed || Live())
      modifies this, registry.Repr()
      ensures registry.Valid() && fresh(registry.Repr() - old(registry.Repr()))
      ensures registry.log == old(registry.log) +
              if old(consumed) then [] else [Recorded(key, registry.clock.now, policy, false, grant)]
      ensures old(consumed) ==> unchanged(registry.clock)
    {
      if !consumed {
        registry.Record(key, false, policy, grant);
      }
    }
  }
}

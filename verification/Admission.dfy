/** Admission tickets and the gate sequence that issues them. */
module Admission {
  import opened Wrappers
  import opened Sequences
  import opened CircuitBreaker
  import opened BreakerLog
  import opened Registry
  import opened Accounting
  import opened Targets
  import Retry
  import Cost = CostFilter
  import Fallback

  datatype ResolvedRoute = ResolvedRoute(chain: seq<BackendTarget>, retry: Retry.RetryPolicy, breaker: BreakerPolicy)

  /** Proof of admission. It owns one hold for each chain element whose breaker allowed it. */
  class AdmissionTicket {
    const chain: seq<BackendTarget>
    const route: ResolvedRoute
    const registry: BreakerRegistry
    var holds: seq<BreakerHold?>
    var consumed: bool

    constructor (chain: seq<BackendTarget>, route: ResolvedRoute, registry: BreakerRegistry, holds: seq<BreakerHold?>)
      ensures this.chain == chain && this.route == route && this.registry == registry
      ensures this.holds == holds && !consumed
    {
      this.chain, this.route, this.registry, this.holds := chain, route, registry, holds;
      consumed := false;
    }

    ghost predicate Valid()
      reads this, registry, registry.clock, registry.breakers.Values, holds
    {
      && registry.Valid()
      && HoldsLive(registry, chain, holds, 0)
      && (consumed ==> holds == [])
      && (!consumed ==> |holds| == |chain|)
    }

    /** The ticket as `admit` leaves it: nothing consumed, something allowed. */
    ghost predicate Fresh()
      reads this, registry, registry.clock, registry.breakers.Values, holds
    {
      Valid() && !consumed && exists i :: 0 <= i < |holds| && holds[i] != null
    }

    predicate BreakerAllowed(i: nat)
      reads this
    {
      i < |holds| && holds[i] != null
    }

    /** Idempotent: the selected hold records the outcome, every other hold is dropped. */
    method Consume(chainIndex: nat, succeeded: bool)
      requires Valid()
      modifies this, registry.Repr(), holds
      ensures Valid() && consumed && fresh(registry.Repr() - old(registry.Repr()))
      ensures Settled(old(registry.log), registry.log, old(Grants(holds)), if succeeded then Some(chainIndex) else None)
    {
      if consumed {
        return;
      }
      consumed := true;
      var taken := holds;
      holds := [];
      ReleaseAll(registry, chain, taken, Some(chainIndex), succeeded);
    }

    /** What the compiler does when a ticket goes out of scope. */
    method Drop()
      requires Valid()
      modifies this, registry.Repr(), holds
      ensures registry.Valid() && fresh(registry.Repr() - old(registry.Repr()))
      ensures Settled(old(registry.log), registry.log, old(Grants(holds)), None)
      ensures registry.log == old(registry.log) <==> forall i :: 0 <= i < |old(holds)| ==> old(holds)[i] == null
    {
      ghost var before, grants := registry.log, Grants(holds);
      assert forall i :: 0 <= i < |holds| ==> (grants[i].None? <==> holds[i] == null);
      ReleaseAll(registry, chain, holds, None, false);
      SilentIff(before, registry.log, grants, None);
    }
  }

  /** The grant behind each position of a vector of holds. */
  ghost function Grants(holds: seq<BreakerHold?>): seq<Option<nat>> {
    seq(|holds|, i requires 0 <= i < |holds| => if holds[i] == null then None else Some(holds[i].grant))
  }

  /** From position `from` on, the holds are distinct, unsettled, and for the chain's own keys. */
  ghost predicate HoldsLive(registry: BreakerRegistry, chain: seq<BackendTarget>, holds: seq<BreakerHold?>, from: nat)
    reads registry, holds
  {
    && (forall i :: from <= i < |holds| && holds[i] != null ==>
         i < |chain| && holds[i].registry == registry && holds[i].Live() && holds[i].key == KeyOf(chain[i]))
    && (forall i, j :: 0 <= i < j < |holds| && holds[i] != null && holds[j] != null ==>
         holds[i] != holds[j] && holds[i].grant != holds[j].grant)
  }

  /** The log has grown by exactly the records the grants are owed, in order, and nothing else. */
  ghost predicate Settled(before: Log, after: Log, grants: seq<Option<nat>>, winner: Option<nat>) {
    && before <= after
    && Records(after) == Records(before) + Expected(grants, winner)
    && |after| == |before| + |Expected(grants, winner)|
  }

  /** Settling a ticket leaves the log as it was exactly if the ticket held nothing. */
  lemma SilentIff(before: Log, after: Log, grants: seq<Option<nat>>, winner: Option<nat>)
    requires Settled(before, after, grants, winner)
    ensures after == before <==> forall i :: 0 <= i < |grants| ==> grants[i].None?
  {
    ExpectedEmptyIff(grants, winner);
  }

  /**
   The glossary says that a drop releases every slot. A ticket as `admit` issues it never drops
   silently: it holds something, and each hold it holds records a failure.
   */
  lemma IssuedTicketNeverDropsSilently(ticket: AdmissionTicket, after: Log)
    requires ticket.Fresh() && Settled(ticket.registry.log, after, Grants(ticket.holds), None)
    ensures after != ticket.registry.log
    ensures exists i :: |ticket.registry.log| <= i < |after| && after[i].Recorded? && !after[i].ok
  {
    var before, grants := ticket.registry.log, Grants(ticket.holds);
    var i :| 0 <= i < |ticket.holds| && ticket.holds[i] != null;
    assert grants[i].Some?;
    SilentIff(before, after, grants, None);
    NewRecords(before, after, Expected(grants, None));
    ExpectedFailures(grants, Expected(grants, None));
    var first := Expected(grants, None)[0];
    assert first in Expected(grants, None);
    assert after[|before|].Recorded? && !after[|before|].ok;
  }

  lemma {:induction false} ExpectedFailures(grants: seq<Option<nat>>, owed: seq<(nat, bool)>)
    requires owed == Expected(grants, None)
    ensures forall r :: r in owed ==> !r.1
  {
    if grants != [] {
      ExpectedFailures(grants[..|grants| - 1], Expected(grants[..|grants| - 1], None));
    }
  }

  lemma SettledStep(before: Log, log: Log, after: Log, grants: seq<Option<nat>>, i: nat, winner: Option<nat>)
    requires i < |grants| && Settled(before, log, grants[..i], winner)
    requires grants[i].None? ==> after == log
    requires grants[i].Some? ==> |after| == |log| + 1 && after == log + [after[|log|]] &&
                                 Settles(after[|log|], grants[i].value) && after[|log|].ok == (winner == Some(i))
    ensures Settled(before, after, grants[..i + 1], winner)
  {
    ExpectedSnoc(grants, i, winner);
    if grants[i].Some? {
      RecordsSnoc(log, after[|log|]);
    }
  }

  /** Walks a vector of holds in order: the chosen one records the outcome, the others are dropped. */
  method ReleaseAll(registry: BreakerRegistry, ghost chain: seq<BackendTarget>, holds: seq<BreakerHold?>,
                    chosen: Option<nat>, succeeded: bool)
    requires registry.Valid() && HoldsLive(registry, chain, holds, 0)
    modifies registry.Repr(), holds
    ensures registry.Valid() && fresh(registry.Repr() - old(registry.Repr()))
    ensures Settled(old(registry.log), registry.log, Grants(holds), if succeeded then chosen else None)
  {
    ghost var grants, winner := Grants(holds), if succeeded then chosen else None;
    ghost var before := registry.log;
    assert grants[..0] == [];
    for i := 0 to |holds|
      invariant registry.Valid() && fresh(registry.Repr() - old(registry.Repr()))
      invariant HoldsLive(registry, chain, holds, i)
      invariant Settled(before, registry.log, grants[..i], winner)
    {
      ghost var log := registry.log;
      if holds[i] != null {
        ReleaseOne(registry, chain, holds, i, chosen, succeeded);
      }
      SettledStep(before, log, registry.log, grants, i, winner);
    }
    assert grants[..|holds|] == grants;
  }

  method ReleaseOne(registry: BreakerRegistry, ghost chain: seq<BackendTarget>, holds: seq<BreakerHold?>, i: nat,
                    chosen: Option<nat>, succeeded: bool)
    requires registry.Valid() && HoldsLive(registry, chain, holds, i)
    requires i < |holds| && holds[i] != null
    modifies registry.Repr(), holds[i]
    ensures registry.Valid() && fresh(registry.Repr() - old(registry.Repr()))
    ensures HoldsLive(registry, chain, holds, i + 1)
    ensures |registry.log| == |old(registry.log)| + 1
    ensures registry.log == old(registry.log) + [registry.log[|old(registry.log)|]]
    ensures var e := registry.log[|old(registry.log)|];
            Settles(e, holds[i].grant) && e.ok == (succeeded && chosen == Some(i))
  {
    var hold := holds[i];
    ghost var before := registry.log;
    if chosen == Some(i) {
      hold.Consume(succeeded);
    } else {
      hold.Drop();
    }
    forall j | i < j < |holds| && holds[j] != null
      ensures holds[j].Live()
    {
      OutstandingKept(before, registry.log[|before|], holds[j].grant);
    }
  }

  // ---- the gates ----

  datatype Dimension = PerKey | PerRoute | PerUpstream | PerIp

  datatype LimitRejection = LimitRejection(dimension: Dimension, retryAfterSecs: nat)

  datatype AdmissionError =
    | RateLimited(rejection: LimitRejection)
    | NoEligibleUpstream(filtered: seq<Cost.Skip>)
    | CapabilityMismatch(message: string)
    | AllBreakersOpen(tried: seq<string>)
    | Provider(error: Fallback.ProviderError)

  /** Everything outside the breaker that a decision depends on: what each limiter check answers, and the request. */
  datatype Gates = Gates(
    preChain: Option<LimitRejection>,
    perUpstream: nat -> Option<LimitRejection>,
    providers: map<string, bool>,  // name -> supports vision
    hasImage: bool,
    limits: Cost.Limits,
    tokens: Cost.Tokens,
    config: Cost.Config,
    probe: Cost.Probe)

  const NO_VISION := "target provider does not support vision (image blocks present in request)"

  function CapabilityError(g: Gates, t: BackendTarget): Option<AdmissionError> {
    if t.provider !in g.providers then Some(Provider(Fallback.UnknownProvider(t.provider)))
    else if g.hasImage && !g.providers[t.provider] then Some(CapabilityMismatch(NO_VISION))
    else None
  }

  function CapabilityAt(g: Gates, chain: seq<BackendTarget>): nat -> Option<AdmissionError> {
    (i: nat) => if i < |chain| then CapabilityError(g, chain[i]) else None
  }

  function FirstIncapable(g: Gates, chain: seq<BackendTarget>): Option<AdmissionError> {
    First(CapabilityAt(g, chain), |chain|)
  }

  function Filtered(g: Gates, chain: seq<BackendTarget>): seq<BackendTarget> {
    Cost.Survivors(g.limits, g.tokens, g.config, g.probe, chain)
  }

  /** The gate that refuses first, of those that run before any breaker is asked. */
  function GateError(g: Gates, chain: seq<BackendTarget>): Option<AdmissionError> {
    var survivors := Filtered(g, chain);
    if g.preChain.Some? then Some(RateLimited(g.preChain.value))
    else if survivors == [] then Some(NoEligibleUpstream(Cost.Skips(g.limits, g.tokens, g.config, g.probe, chain)))
    else if First(g.perUpstream, |survivors|).Some? then
      Some(RateLimited(First(g.perUpstream, |survivors|).value))
    else FirstIncapable(g, survivors)
  }

  /** The provider of the target is registered and can see, if the request has something to see. */
  predicate Capable(g: Gates, t: BackendTarget) {
    t.provider in g.providers && (g.hasImage ==> g.providers[t.provider])
  }

  lemma CapableIff(g: Gates, t: BackendTarget)
    ensures CapabilityError(g, t).None? <==> Capable(g, t)
    ensures CapabilityError(g, t).Some? ==>
            CapabilityError(g, t).value ==
            if t.provider in g.providers then CapabilityMismatch(NO_VISION) else Provider(Fallback.UnknownProvider(t.provider))
  {
  }

  lemma AllCapableIff(g: Gates, chain: seq<BackendTarget>)
    ensures FirstIncapable(g, chain).None? <==> forall t :: t in chain ==> Capable(g, t)
  {
    var at := CapabilityAt(g, chain);
    FirstIsNone(at, |chain|);
    forall i: nat | i < |chain|
      ensures at(i).None? <==> Capable(g, chain[i])
    {
    }
  }

  /** Nothing before the capability gate refuses. */
  ghost predicate ReachesCapabilityGate(g: Gates, survivors: seq<BackendTarget>) {
    && g.preChain.None? && survivors != []
    && forall i: nat :: i < |survivors| ==> g.perUpstream(i).None?
  }

  /** No gate refuses exactly if no limiter does, something survives the filter, and every survivor is capable. */
  lemma NoGateRefusesIff(g: Gates, chain: seq<BackendTarget>)
    ensures GateError(g, chain).None? <==>
            ReachesCapabilityGate(g, Filtered(g, chain)) && forall t :: t in Filtered(g, chain) ==> Capable(g, t)
  {
    FirstIsNone(g.perUpstream, |Filtered(g, chain)|);
    AllCapableIff(g, Filtered(g, chain));
  }

  /** The limiters: the pre-chain check before anything else, then, on survivors only, the first position to refuse. */
  lemma RateLimitedIff(g: Gates, chain: seq<BackendTarget>, x: LimitRejection)
    ensures GateError(g, chain) == Some(RateLimited(x)) <==>
            || g.preChain == Some(x)
            || (g.preChain.None? && exists i: nat :: && i < |Filtered(g, chain)| && g.perUpstream(i) == Some(x)
                                                     && forall j: nat :: j < i ==> g.perUpstream(j).None?)
  {
    var n := |Filtered(g, chain)|;
    FirstIs(g.perUpstream, n, x);
    if First(g.perUpstream, n).Some? {
      FirstIs(g.perUpstream, n, First(g.perUpstream, n).value);
    }
    NotALimit(g, Filtered(g, chain), x);
  }

  lemma NotALimit(g: Gates, survivors: seq<BackendTarget>, x: LimitRejection)
    ensures FirstIncapable(g, survivors) != Some(RateLimited(x))
  {
    FirstIs(CapabilityAt(g, survivors), |survivors|, RateLimited(x));
  }

  /** The filter: refused there exactly if the pre-chain check passes and no target survives, with every skip reported. */
  lemma NoEligibleIff(g: Gates, chain: seq<BackendTarget>)
    ensures GateError(g, chain).Some? && GateError(g, chain).value.NoEligibleUpstream? <==>
            g.preChain.None? && Filtered(g, chain) == []
    ensures GateError(g, chain).Some? && GateError(g, chain).value.NoEligibleUpstream? ==>
            |GateError(g, chain).value.filtered| == |chain|
  {
    var survivors := Filtered(g, chain);
    if FirstIncapable(g, survivors).Some? {
      FirstIs(CapabilityAt(g, survivors), |survivors|, FirstIncapable(g, survivors).value);
    }
    Cost.SplitsTheChain(g.limits, g.tokens, g.config, g.probe, chain);
  }

  /** Position i is the first survivor that is not capable. */
  ghost predicate FirstIncapableAt(g: Gates, survivors: seq<BackendTarget>, i: nat) {
    i < |survivors| && !Capable(g, survivors[i]) && forall j: nat :: j < i ==> Capable(g, survivors[j])
  }

  /** The capability gate: the first incapable survivor decides whether a provider is unknown or cannot see. */
  lemma IncapableIff(g: Gates, chain: seq<BackendTarget>, e: AdmissionError)
    requires e.Provider? || e.CapabilityMismatch?
    ensures GateError(g, chain) == Some(e) <==>
            var survivors := Filtered(g, chain);
            && ReachesCapabilityGate(g, survivors)
            && exists i: nat :: && FirstIncapableAt(g, survivors, i)
                                && e == if survivors[i].provider in g.providers then CapabilityMismatch(NO_VISION)
                                        else Provider(Fallback.UnknownProvider(survivors[i].provider))
  {
    var survivors := Filtered(g, chain);
    FirstIsNone(g.perUpstream, |survivors|);
    FirstErrorIs(g, survivors, e);
  }

  lemma FirstErrorIs(g: Gates, survivors: seq<BackendTarget>, e: AdmissionError)
    ensures FirstIncapable(g, survivors) == Some(e) <==>
            exists i: nat :: && FirstIncapableAt(g, survivors, i)
                             && e == if survivors[i].provider in g.providers then CapabilityMismatch(NO_VISION)
                                     else Provider(Fallback.UnknownProvider(survivors[i].provider))
  {
    var at := CapabilityAt(g, survivors);
    FirstIs(at, |survivors|, e);
    forall i: nat | i < |survivors|
      ensures at(i).None? <==> Capable(g, survivors[i])
      ensures !Capable(g, survivors[i]) ==>
              at(i) == Some(if survivors[i].provider in g.providers then CapabilityMismatch(NO_VISION)
                            else Provider(Fallback.UnknownProvider(survivors[i].provider)))
    {
      CapableIff(g, survivors[i]);
    }
    if i: nat :| i < |survivors| && at(i) == Some(e) && forall j: nat :: j < i ==> at(j).None? {
      assert FirstIncapableAt(g, survivors, i);
    }
    if i: nat :| FirstIncapableAt(g, survivors, i) && at(i) == Some(e) {
      assert forall j: nat :: j < i ==> at(j).None?;
    }
  }

  // ---- what a client of a route that fails the min_tier rule is told ----

  /** Every configured upstream has its provider registered, under the upstream's own name. */
  predicate RegisteredAsConfigured(g: Gates) {
    g.providers.Keys == g.config.Keys
  }

  lemma FirstTargetIncapable(g: Gates, chain: seq<BackendTarget>)
    requires chain != [] && CapabilityError(g, chain[0]).Some?
    ensures FirstIncapable(g, chain) == CapabilityError(g, chain[0])
  {
    FirstStays(CapabilityAt(g, chain), 1, |chain|);
  }

  /**
   Validation says that a route failing its min_tier rule would produce NoEligibleUpstream for ever.
   With the limiters out of the way such a route is always refused, but with that error exactly if
   every listed name has an entry of its own; otherwise the refusal names an unknown provider.
   */
  lemma RejectedRouteIsRefused(g: Gates, chain: seq<BackendTarget>, pick: Option<Cost.Upstream>, names: seq<string>)
    requires !Cost.PossibleMinTier(g.config, pick, g.limits, names)
    requires forall n :: n in names <==> exists t :: t in chain && t.provider == n
    requires RegisteredAsConfigured(g) && g.preChain.None? && forall i :: g.perUpstream(i).None?
    ensures GateError(g, chain).Some?
    ensures GateError(g, chain).value.NoEligibleUpstream? <==> forall n :: n in names ==> n in g.config
    ensures !GateError(g, chain).value.NoEligibleUpstream? ==>
            exists n :: n in names && n !in g.config &&
                        GateError(g, chain).value == Provider(Fallback.UnknownProvider(n))
  {
    var survivors := Filtered(g, chain);
    forall t
      ensures t in survivors <==> t in chain && t.provider !in g.config
    {
      Cost.RejectedRouteSurvivors(g.config, pick, g.limits, names, g.tokens, g.probe, chain, t);
    }
    if survivors != [] {
      assert survivors[0] in survivors;
      FirstIsNone(g.perUpstream, |survivors|);
      FirstTargetIncapable(g, survivors);
      assert survivors[0].provider in names;
    } else {
      forall n | n in names
        ensures n in g.config
      {
        var t :| t in chain && t.provider == n;
        assert t !in survivors;
      }
    }
  }

  const CHEAP_COPILOT := Cost.Upstream(true, Cost.Economy, None, None)

  /** `copilot` resolves to a cheap Copilot block under another name, so the rule rejects the route. */
  const VIRTUAL_ROUTE := [BackendTarget("copilot", "m")]

  function VirtualGates(tokens: Cost.Tokens, probe: Cost.Probe): Gates {
    Gates(None, _ => None, map["gh" := false], false, Cost.Limits(Some(Cost.Premium), None), tokens,
          map["gh" := CHEAP_COPILOT], probe)
  }

  /** A validated-away route whose refusal is not the one the rule predicts. */
  lemma VirtualNameIsUnknownProvider(tokens: Cost.Tokens, probe: Cost.Probe)
    ensures var g := VirtualGates(tokens, probe);
            && Cost.IsPick(g.config, Some(CHEAP_COPILOT))
            && !Cost.PossibleMinTier(g.config, Some(CHEAP_COPILOT), g.limits, ["copilot"])
            && GateError(g, VIRTUAL_ROUTE) == Some(Provider(Fallback.UnknownProvider("copilot")))
  {
    var g := VirtualGates(tokens, probe);
    assert Cost.Resolve(g.config, Some(CHEAP_COPILOT), "copilot").Some?;
    assert "copilot" in ["copilot"] && "gh" in g.config;
    assert VIRTUAL_ROUTE[0].provider == "copilot";
    assert forall n :: n in ["copilot"] <==> exists t :: t in VIRTUAL_ROUTE && t.provider == n;
    RejectedRouteIsRefused(g, VIRTUAL_ROUTE, Some(CHEAP_COPILOT), ["copilot"]);
  }

  method CheckGates(g: Gates, resolved: ResolvedRoute) returns (chain: seq<BackendTarget>, error: Option<AdmissionError>)
    ensures error == GateError(g, resolved.chain)
    ensures error.None? ==> chain == Filtered(g, resolved.chain) && chain != []
    ensures error.None? <==>
            ReachesCapabilityGate(g, Filtered(g, resolved.chain)) &&
            forall t :: t in Filtered(g, resolved.chain) ==> Capable(g, t)
  {
    NoGateRefusesIff(g, resolved.chain);
    chain := [];
    if g.preChain.Some? {
      return chain, Some(RateLimited(g.preChain.value));
    }
    var survivors, skipped, notes := Cost.FilterChain(g.limits, g.tokens, g.config, g.probe, resolved.chain);
    chain := survivors;
    if survivors == [] {
      return chain, Some(NoEligibleUpstream(skipped));
    }
    for i := 0 to |chain|
      invariant First(g.perUpstream, i).None?
    {
      var refusal := g.perUpstream(i);
      if refusal.Some? {
        FirstStays(g.perUpstream, i + 1, |chain|);
        return chain, Some(RateLimited(refusal.value));
      }
    }
    for i := 0 to |chain|
      invariant First(CapabilityAt(g, chain), i).None?
    {
      var e := CapabilityError(g, chain[i]);
      if e.Some? {
        FirstStays(CapabilityAt(g, chain), i + 1, |chain|);
        return chain, e;
      }
    }
    return chain, None;
  }

  /** The registry has been asked once for each target, in order; a hold exists exactly where it did not say Skip. */
  ghost predicate Asked(before: Log, log: Log, chain: seq<BackendTarget>, policy: BreakerPolicy, grants: seq<Option<nat>>) {
    && |grants| <= |chain| && |log| == |before| + |grants| && before <= log
    && Records(log) == Records(before)
    && forall j :: 0 <= j < |grants| ==>
         GrantedAs(log[|before| + j], |before| + j, chain[j], policy, grants[j])
  }

  ghost predicate GrantedAs(e: Event, at: nat, t: BackendTarget, policy: BreakerPolicy, grant: Option<nat>) {
    && e.Granted? && e.key.provider == t.provider && e.key.model == t.model && e.policy == policy
    && grant == if e.decision == Skip then None else Some(at)
  }

  function Providers(chain: seq<BackendTarget>): seq<string> {
    seq(|chain|, i requires 0 <= i < |chain| => chain[i].provider)
  }

  function NoGrants(n: nat): seq<Option<nat>> {
    seq(n, _ => None)
  }

  /** Rejections leave no record and no hold behind; an issued ticket owns every hold the breakers granted. */
  method Admit(registry: BreakerRegistry, g: Gates, resolved: ResolvedRoute)
    returns (r: Result<AdmissionTicket, AdmissionError>)
    requires registry.Valid()
    modifies registry.Repr()
    ensures registry.Valid() && fresh(registry.Repr() - old(registry.Repr()))
    ensures Records(registry.log) == old(Records(registry.log))
    ensures GateError(g, resolved.chain).Some? ==>
            r == Err(GateError(g, resolved.chain).value) && registry.log == old(registry.log)
    ensures r.Ok? ==> fresh(r.value) && r.value.Fresh() && r.value.registry == registry && r.value.route == resolved
                      && fresh(set h | h in r.value.holds && h != null)
    ensures r.Ok? ==> r.value.chain == Filtered(g, resolved.chain) && r.value.chain != []
                      && forall t :: t in r.value.chain ==> t.provider in g.providers && (g.hasImage ==> g.providers[t.provider])
    ensures r.Ok? ==> Asked(old(registry.log), registry.log, r.value.chain, resolved.breaker, Grants(r.value.holds))
    ensures r.Err? && GateError(g, resolved.chain).None? ==>
            var chain := Filtered(g, resolved.chain);
            && r.error == AllBreakersOpen(Providers(chain))
            && Asked(old(registry.log), registry.log, chain, resolved.breaker, NoGrants(|chain|))
  {
    var chain, error := CheckGates(g, resolved);
    if error.Some? {
      return Err(error.value);
    }
    r := AskBreakers(registry, chain, resolved);
  }

  /** The breaker gate: one hold attempt for each target, refused only if none is allowed. */
  method AskBreakers(registry: BreakerRegistry, chain: seq<BackendTarget>, resolved: ResolvedRoute)
    returns (r: Result<AdmissionTicket, AdmissionError>)
    requires registry.Valid()
    modifies registry.Repr()
    ensures registry.Valid() && fresh(registry.Repr() - old(registry.Repr()))
    ensures Records(registry.log) == old(Records(registry.log))
    ensures r.Ok? ==> fresh(r.value) && r.value.Fresh() && r.value.registry == registry && r.value.route == resolved
                      && fresh(set h | h in r.value.holds && h != null) && r.value.chain == chain
                      && Asked(old(registry.log), registry.log, chain, resolved.breaker, Grants(r.value.holds))
    ensures r.Err? ==> r.error == AllBreakersOpen(Providers(chain))
                       && Asked(old(registry.log), registry.log, chain, resolved.breaker, NoGrants(|chain|))
  {
    var holds, anyAllowed := TakeHolds(registry, chain, resolved.breaker);
    if !anyAllowed {
      assert Grants(holds) == NoGrants(|chain|);
      return Err(AllBreakersOpen(Providers(chain)));
    }
    var ticket := new AdmissionTicket(chain, resolved, registry, holds);
    return Ok(ticket);
  }

  method TakeHolds(registry: BreakerRegistry, chain: seq<BackendTarget>, policy: BreakerPolicy)
    returns (holds: seq<BreakerHold?>, anyAllowed: bool)
    requires registry.Valid()
    modifies registry.Repr()
    ensures registry.Valid() && fresh(registry.Repr() - old(registry.Repr()))
    ensures |holds| == |chain| && HoldsLive(registry, chain, holds, 0)
    ensures fresh(set h | h in holds && h != null)
    ensures Asked(old(registry.log), registry.log, chain, policy, Grants(holds))
    ensures anyAllowed <==> exists j :: 0 <= j < |holds| && holds[j] != null
  {
    holds, anyAllowed := [], false;
    ghost var before := registry.log;
    for i := 0 to |chain|
      invariant |holds| == i
      invariant registry.Valid() && fresh(registry.Repr() - old(registry.Repr()))
      invariant fresh(set h | h in holds && h != null)
      invariant HoldsLive(registry, chain, holds, 0)
      invariant Asked(before, registry.log, chain, policy, Grants(holds))
      invariant anyAllowed <==> AnyHeld(holds)
    {
      var hold := TakeHold(registry, before, chain, holds, policy);
      AnyHeldSnoc(holds, hold);
      holds := holds + [hold];
      if hold != null {
        anyAllowed := true;
      }
    }
  }

  ghost predicate AnyHeld(holds: seq<BreakerHold?>) {
    exists j :: 0 <= j < |holds| && holds[j] != null
  }

  lemma AnyHeldSnoc(holds: seq<BreakerHold?>, hold: BreakerHold?)
    ensures AnyHeld(holds + [hold]) <==> AnyHeld(holds) || hold != null
  {
    var longer := holds + [hold];
    assert longer[|holds|] == hold && forall j :: 0 <= j < |holds| ==> longer[j] == holds[j];
  }

  lemma AskedStep(before: Log, log: Log, e: Event, chain: seq<BackendTarget>, policy: BreakerPolicy,
                  grants: seq<Option<nat>>, grant: Option<nat>)
    requires |grants| < |chain| && Asked(before, log, chain, policy, grants)
    requires e.Granted? && e.key == KeyOf(chain[|grants|]) && e.policy == policy
    requires grant == if e.decision == Skip then None else Some(|log|)
    ensures Asked(before, log + [e], chain, policy, grants + [grant])
  {
    RecordsSnoc(log, e);
    forall j | 0 <= j <= |grants|
      ensures GrantedAs((log + [e])[|before| + j], |before| + j, chain[j], policy, (grants + [grant])[j])
    {
      if j < |grants| {
        assert GrantedAs(log[|before| + j], |before| + j, chain[j], policy, grants[j]);
      }
    }
  }

  method TakeHold(registry: BreakerRegistry, ghost before: Log, chain: seq<BackendTarget>, holds: seq<BreakerHold?>,
                  policy: BreakerPolicy)
    returns (hold: BreakerHold?)
    requires registry.Valid() && |holds| < |chain| && HoldsLive(registry, chain, holds, 0)
    requires Asked(before, registry.log, chain, policy, Grants(holds))
    modifies registry.Repr()
    ensures registry.Valid() && fresh(registry.Repr() - old(registry.Repr()))
    ensures hold != null ==> fresh(hold)
    ensures HoldsLive(registry, chain, holds + [hold], 0)
    ensures Asked(before, registry.log, chain, policy, Grants(holds + [hold]))
  {
    ghost var log := registry.log;
    var target := chain[|holds|];
    hold := registry.TryHold(KeyOf(target), policy);
    ghost var e := registry.log[|log|];
    assert registry.log == log + [e];
    forall j | 0 <= j < |holds| && holds[j] != null
      ensures holds[j].Live()
    {
      OutstandingKept(log, e, holds[j].grant);
    }
    AskedStep(before, log, e, chain, policy, Grants(holds), if hold == null then None else Some(hold.grant));
    assert Grants(holds + [hold]) == Grants(holds) + [if hold == null then None else Some(hold.grant)];
  }
}

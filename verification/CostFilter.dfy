/**
 The tier, latency and cost axes that thin a fallback chain before admission, and the
 configuration rule that keeps the tier axis from emptying it.
 */
module CostFilter {
  import opened Wrappers
  import opened Targets

  datatype Tier = Economy | Standard | Premium

  function Rank(t: Tier): nat {
    match t
    case Economy => 0
    case Standard => 1
    case Premium => 2
  }

  datatype Schedule = Schedule(inputPerMillion: real, outputPerMillion: real)

  datatype Upstream = Upstream(isCopilot: bool, tier: Tier, p95Budget: Option<nat>, cost: Option<Schedule>)

  type Config = map<string, Upstream>

  /** Token counts of the request, as the estimator sees them. */
  datatype Tokens = Tokens(input: nat, output: nat)

  datatype Limits = Limits(minTier: Option<Tier>, maxCost: Option<real>)

  datatype FilterReason = TierTooLow | TooSlow | TooExpensive | LatencyUnknown

  datatype Skip = Skip(upstream: string, reason: FilterReason)

  type Probe = string -> Option<nat>

  function Estimate(tokens: Tokens, s: Schedule): real {
    (tokens.input as real * s.inputPerMillion + tokens.output as real * s.outputPerMillion) / 1000000.0
  }

  predicate TierRejects(limits: Limits, u: Upstream) {
    limits.minTier.Some? && Rank(u.tier) < Rank(limits.minTier.value)
  }

  predicate LatencyRejects(u: Upstream, measured: Option<nat>) {
    u.p95Budget.Some? && measured.Some? && measured.value > u.p95Budget.value
  }

  predicate CapRejects(limits: Limits, tokens: Tokens, u: Upstream) {
    limits.maxCost.Some? && u.cost.Some? && Estimate(tokens, u.cost.value) > limits.maxCost.value
  }

  /** Why a target is skipped: the first axis to reject it. An unconfigured upstream is kept. */
  function Rejection(limits: Limits, tokens: Tokens, cfg: Config, probe: Probe, t: BackendTarget): Option<FilterReason> {
    if t.provider !in cfg then None
    else
      var u := cfg[t.provider];
      if TierRejects(limits, u) then Some(TierTooLow)
      else if LatencyRejects(u, probe(t.provider)) then Some(TooSlow)
      else if CapRejects(limits, tokens, u) then Some(TooExpensive)
      else None
  }

  /**
   The axes in numbers, in the order in which they are tried: the tier order, the measured latency over
   the budget, and the token counts times their prices over a million times the cap.
   */
  lemma RejectionInNumbers(limits: Limits, tokens: Tokens, cfg: Config, probe: Probe, t: BackendTarget)
    requires t.provider in cfg
    ensures var u := cfg[t.provider];
            var low := limits.minTier.Some? && ((limits.minTier.value == Premium && u.tier != Premium) ||
                                                (limits.minTier.value == Standard && u.tier == Economy));
            var slow := u.p95Budget.Some? && probe(t.provider).Some? && u.p95Budget.value < probe(t.provider).value;
            var dear := limits.maxCost.Some? && u.cost.Some? &&
                        tokens.input as real * u.cost.value.inputPerMillion +
                        tokens.output as real * u.cost.value.outputPerMillion > 1000000.0 * limits.maxCost.value;
            var r := Rejection(limits, tokens, cfg, probe, t);
            && (r == Some(TierTooLow) <==> low)
            && (r == Some(TooSlow) <==> !low && slow)
            && (r == Some(TooExpensive) <==> !low && !slow && dear)
            && (r == None <==> !low && !slow && !dear)
            && (Noted(limits, cfg, probe, t) <==> !low && u.p95Budget.Some? && probe(t.provider).None?)
  {
  }

  /** Noted, whatever the cap axis decides afterwards. */
  predicate Noted(limits: Limits, cfg: Config, probe: Probe, t: BackendTarget) {
    t.provider in cfg && !TierRejects(limits, cfg[t.provider]) &&
    cfg[t.provider].p95Budget.Some? && probe(t.provider).None?
  }

  function Survivors(limits: Limits, tokens: Tokens, cfg: Config, probe: Probe, chain: seq<BackendTarget>): seq<BackendTarget> {
    if chain == [] then []
    else
      var init, t := chain[..|chain| - 1], chain[|chain| - 1];
      Survivors(limits, tokens, cfg, probe, init) +
      (if Rejection(limits, tokens, cfg, probe, t).None? then [t] else [])
  }

  function Skips(limits: Limits, tokens: Tokens, cfg: Config, probe: Probe, chain: seq<BackendTarget>): seq<Skip> {
    if chain == [] then []
    else
      var init, t := chain[..|chain| - 1], chain[|chain| - 1];
      var r := Rejection(limits, tokens, cfg, probe, t);
      Skips(limits, tokens, cfg, probe, init) + (if r.Some? then [Skip(t.provider, r.value)] else [])
  }

  function Notes(limits: Limits, cfg: Config, probe: Probe, chain: seq<BackendTarget>): seq<Skip> {
    if chain == [] then []
    else
      var init, t := chain[..|chain| - 1], chain[|chain| - 1];
      Notes(limits, cfg, probe, init) + (if Noted(limits, cfg, probe, t) then [Skip(t.provider, LatencyUnknown)] else [])
  }

  method FilterChain(limits: Limits, tokens: Tokens, cfg: Config, probe: Probe, chain: seq<BackendTarget>)
    returns (survivors: seq<BackendTarget>, skipped: seq<Skip>, notes: seq<Skip>)
    ensures survivors == Survivors(limits, tokens, cfg, probe, chain)
    ensures skipped == Skips(limits, tokens, cfg, probe, chain)
    ensures notes == Notes(limits, cfg, probe, chain)
  {
    survivors, skipped, notes := [], [], [];
    for i := 0 to |chain|
      invariant survivors == Survivors(limits, tokens, cfg, probe, chain[..i])
      invariant skipped == Skips(limits, tokens, cfg, probe, chain[..i])
      invariant notes == Notes(limits, cfg, probe, chain[..i])
    {
      var target := chain[i];
      assert chain[..i + 1][..i] == chain[..i];
      if target.provider !in cfg {
        survivors := survivors + [target];
        continue;
      }
      var u := cfg[target.provider];
      if limits.minTier.Some? && Rank(u.tier) < Rank(limits.minTier.value) {
        skipped := skipped + [Skip(target.provider, TierTooLow)];
        continue;
      }
      if u.p95Budget.Some? {
        var measured := probe(target.provider);
        if measured.Some? && measured.value > u.p95Budget.value {
          skipped := skipped + [Skip(target.provider, TooSlow)];
          continue;
        }
        if measured.None? {
          notes := notes + [Skip(target.provider, LatencyUnknown)];
        }
      }
      if limits.maxCost.Some? && u.cost.Some? && Estimate(tokens, u.cost.value) > limits.maxCost.value {
        skipped := skipped + [Skip(target.provider, TooExpensive)];
        continue;
      }
      survivors := survivors + [target];
    }
    assert chain[..|chain|] == chain;
  }

  predicate Subsequence<T(==)>(a: seq<T>, b: seq<T>) {
    if a == [] then true
    else if b == [] then false
    else if a[|a| - 1] == b[|b| - 1] && Subsequence(a[..|a| - 1], b[..|b| - 1]) then true
    else Subsequence(a, b[..|b| - 1])
  }

  lemma SubsequenceSnoc<T>(a: seq<T>, b: seq<T>, t: T)
    requires Subsequence(a, b)
    ensures Subsequence(a, b + [t]) && Subsequence(a + [t], b + [t])
  {
    assert (a + [t])[..|a|] == a && (b + [t])[..|b|] == b;
  }

  lemma SubsequenceStep<T>(a: seq<T>, b: seq<T>, t: T, keptByA: bool, keptByB: bool)
    requires Subsequence(a, b) && (keptByA ==> keptByB)
    ensures Subsequence(a + (if keptByA then [t] else []), b + (if keptByB then [t] else []))
  {
    assert a + [] == a && b + [] == b;
    SubsequenceSnoc(a, b, t);
  }

  lemma ResultsSnoc(limits: Limits, tokens: Tokens, cfg: Config, probe: Probe, chain: seq<BackendTarget>, i: nat)
    requires i < |chain|
    ensures var reason := Rejection(limits, tokens, cfg, probe, chain[i]);
            && Survivors(limits, tokens, cfg, probe, chain[..i + 1]) ==
               Survivors(limits, tokens, cfg, probe, chain[..i]) + (if reason.None? then [chain[i]] else [])
            && Skips(limits, tokens, cfg, probe, chain[..i + 1]) ==
               Skips(limits, tokens, cfg, probe, chain[..i]) +
               (if reason.Some? then [Skip(chain[i].provider, reason.value)] else [])
  {
    assert chain[..i + 1][..i] == chain[..i];
  }

  /** Survivors keep chain order, and every chain position is either a survivor or accounts for one skip. */
  lemma {:induction false} SplitsTheChain(limits: Limits, tokens: Tokens, cfg: Config, probe: Probe, chain: seq<BackendTarget>)
    ensures Subsequence(Survivors(limits, tokens, cfg, probe, chain), chain)
    ensures |Survivors(limits, tokens, cfg, probe, chain)| + |Skips(limits, tokens, cfg, probe, chain)| == |chain|
  {
    if chain != [] {
      var n := |chain| - 1;
      SplitsTheChain(limits, tokens, cfg, probe, chain[..n]);
      ResultsSnoc(limits, tokens, cfg, probe, chain, n);
      SubsequenceStep(Survivors(limits, tokens, cfg, probe, chain[..n]), chain[..n], chain[n],
                      Rejection(limits, tokens, cfg, probe, chain[n]).None?, true);
      assert chain[..n + 1] == chain == chain[..n] + [chain[n]];
    }
  }

  lemma {:induction false} PrefixesOfResults(limits: Limits, tokens: Tokens, cfg: Config, probe: Probe,
                                             chain: seq<BackendTarget>, n: nat)
    requires n <= |chain|
    ensures Survivors(limits, tokens, cfg, probe, chain[..n]) <= Survivors(limits, tokens, cfg, probe, chain)
    ensures Skips(limits, tokens, cfg, probe, chain[..n]) <= Skips(limits, tokens, cfg, probe, chain)
    decreases |chain|
  {
    if n == |chain| {
      assert chain[..n] == chain;
    } else {
      var init := chain[..|chain| - 1];
      assert init[..n] == chain[..n];
      PrefixesOfResults(limits, tokens, cfg, probe, init, n);
    }
  }

  lemma SurvivorAt(limits: Limits, tokens: Tokens, cfg: Config, probe: Probe, chain: seq<BackendTarget>, i: nat)
    requires i < |chain| && Rejection(limits, tokens, cfg, probe, chain[i]).None?
    ensures var kept := |Survivors(limits, tokens, cfg, probe, chain[..i])|;
            var survivors := Survivors(limits, tokens, cfg, probe, chain);
            kept < |survivors| && survivors[kept] == chain[i]
  {
    PrefixesOfResults(limits, tokens, cfg, probe, chain, i + 1);
    ResultsSnoc(limits, tokens, cfg, probe, chain, i);
  }

  lemma SkipAt(limits: Limits, tokens: Tokens, cfg: Config, probe: Probe, chain: seq<BackendTarget>, i: nat)
    requires i < |chain| && Rejection(limits, tokens, cfg, probe, chain[i]).Some?
    ensures var skipped := |Skips(limits, tokens, cfg, probe, chain[..i])|;
            var skips := Skips(limits, tokens, cfg, probe, chain);
            && skipped < |skips|
            && skips[skipped] == Skip(chain[i].provider, Rejection(limits, tokens, cfg, probe, chain[i]).value)
  {
    PrefixesOfResults(limits, tokens, cfg, probe, chain, i + 1);
    ResultsSnoc(limits, tokens, cfg, probe, chain, i);
  }

  /** Position by position: target i is the next survivor if no axis rejects it, and the next skip otherwise. */
  lemma EachPositionOnce(limits: Limits, tokens: Tokens, cfg: Config, probe: Probe, chain: seq<BackendTarget>, i: nat)
    requires i < |chain|
    ensures var kept := |Survivors(limits, tokens, cfg, probe, chain[..i])|;
            var reason := Rejection(limits, tokens, cfg, probe, chain[i]);
            var survivors, skips := Survivors(limits, tokens, cfg, probe, chain), Skips(limits, tokens, cfg, probe, chain);
            && kept <= i
            && (reason.None? ==> kept < |survivors| && survivors[kept] == chain[i])
            && (reason.Some? ==> i - kept < |skips| && skips[i - kept] == Skip(chain[i].provider, reason.value))
  {
    SplitsTheChain(limits, tokens, cfg, probe, chain[..i]);
    if Rejection(limits, tokens, cfg, probe, chain[i]).None? {
      SurvivorAt(limits, tokens, cfg, probe, chain, i);
    } else {
      SkipAt(limits, tokens, cfg, probe, chain, i);
    }
  }

  lemma {:induction false} NotesPrefix(limits: Limits, cfg: Config, probe: Probe, chain: seq<BackendTarget>, n: nat)
    requires n <= |chain|
    ensures Notes(limits, cfg, probe, chain[..n]) <= Notes(limits, cfg, probe, chain)
    decreases |chain|
  {
    if n == |chain| {
      assert chain[..n] == chain;
    } else {
      var init := chain[..|chain| - 1];
      assert init[..n] == chain[..n];
      NotesPrefix(limits, cfg, probe, init, n);
    }
  }

  /** A target whose budget has no measurement to go with it is the next note, whether or not it survives. */
  lemma NoteAt(limits: Limits, cfg: Config, probe: Probe, chain: seq<BackendTarget>, i: nat)
    requires i < |chain|
    ensures Noted(limits, cfg, probe, chain[i]) ==>
            var noted := |Notes(limits, cfg, probe, chain[..i])|;
            && noted < |Notes(limits, cfg, probe, chain)|
            && Notes(limits, cfg, probe, chain)[noted] == Skip(chain[i].provider, LatencyUnknown)
    ensures !Noted(limits, cfg, probe, chain[i]) ==>
            Notes(limits, cfg, probe, chain[..i + 1]) == Notes(limits, cfg, probe, chain[..i])
  {
    NotesPrefix(limits, cfg, probe, chain, i + 1);
    assert chain[..i + 1][..i] == chain[..i];
  }

  /** A target survives exactly if it is in the chain and no axis rejects it. */
  lemma {:induction false} SurvivesIffNotRejected(limits: Limits, tokens: Tokens, cfg: Config, probe: Probe,
                                                  chain: seq<BackendTarget>, t: BackendTarget)
    ensures t in Survivors(limits, tokens, cfg, probe, chain) <==>
            t in chain && Rejection(limits, tokens, cfg, probe, t).None?
  {
    if chain != [] {
      SurvivesIffNotRejected(limits, tokens, cfg, probe, chain[..|chain| - 1], t);
      assert chain == chain[..|chain| - 1] + [chain[|chain| - 1]];
    }
  }

  /** `loose` asks no more of an upstream than `strict` does. */
  predicate Relaxes(loose: Limits, strict: Limits) {
    && (loose.minTier.Some? ==> strict.minTier.Some? && Rank(loose.minTier.value) <= Rank(strict.minTier.value))
    && (loose.maxCost.Some? ==> strict.maxCost.Some? && strict.maxCost.value <= loose.maxCost.value)
  }

  /** Raising the cap or lowering the minimum tier never loses a survivor or reorders them. */
  lemma {:induction false} RelaxingKeepsSurvivors(loose: Limits, strict: Limits, tokens: Tokens, cfg: Config, probe: Probe,
                                chain: seq<BackendTarget>)
    requires Relaxes(loose, strict)
    ensures Subsequence(Survivors(strict, tokens, cfg, probe, chain), Survivors(loose, tokens, cfg, probe, chain))
  {
    if chain != [] {
      var init, t := chain[..|chain| - 1], chain[|chain| - 1];
      RelaxingKeepsSurvivors(loose, strict, tokens, cfg, probe, init);
      RelaxingKeepsTarget(loose, strict, tokens, cfg, probe, t);
      SubsequenceStep(Survivors(strict, tokens, cfg, probe, init), Survivors(loose, tokens, cfg, probe, init), t,
                      Rejection(strict, tokens, cfg, probe, t).None?, Rejection(loose, tokens, cfg, probe, t).None?);
    }
  }

  lemma RelaxingKeepsTarget(loose: Limits, strict: Limits, tokens: Tokens, cfg: Config, probe: Probe, t: BackendTarget)
    requires Relaxes(loose, strict)
    ensures Rejection(strict, tokens, cfg, probe, t).None? ==> Rejection(loose, tokens, cfg, probe, t).None?
  {
  }

  // ---- the validation rule on min_tier ----

  /** The literal entry, or for the virtual name `copilot` whichever Copilot block the code finds (`pick`). */
  function Resolve(cfg: Config, pick: Option<Upstream>, name: string): Option<Upstream> {
    if name in cfg then Some(cfg[name]) else if name == "copilot" then pick else None
  }

  predicate Meets(cfg: Config, pick: Option<Upstream>, minTier: Tier, name: string) {
    Resolve(cfg, pick, name).Some? && Rank(Resolve(cfg, pick, name).value.tier) >= Rank(minTier)
  }

  /** Rule 17: the route declares no minimum, no name resolves, or some resolved tier meets it. */
  predicate PossibleMinTier(cfg: Config, pick: Option<Upstream>, limits: Limits, names: seq<string>) {
    || limits.minTier.None?
    || (forall n :: n in names ==> Resolve(cfg, pick, n).None?)
    || (exists n :: n in names && Meets(cfg, pick, limits.minTier.value, n))
  }

  /**
   For a configuration that passes the rule, some target of a chain over the route's names is
   not rejected by tier, including a chain that names `copilot` only virtually.
   */
  lemma TierAloneNeverEmpties(cfg: Config, pick: Option<Upstream>, limits: Limits, names: seq<string>, chain: seq<BackendTarget>)
    requires names != [] && PossibleMinTier(cfg, pick, limits, names)
    requires forall n :: n in names <==> exists t :: t in chain && t.provider == n
    ensures exists t :: t in chain && (t.provider in cfg ==> !TierRejects(limits, cfg[t.provider]))
  {
    var n := names[0];
    if limits.minTier.Some? && !(forall n :: n in names ==> Resolve(cfg, pick, n).None?) {
      n :| n in names && Meets(cfg, pick, limits.minTier.value, n);
    }
    assert n in names;
    var t :| t in chain && t.provider == n;
    assert t.provider in cfg ==> !TierRejects(limits, cfg[t.provider]);
  }

  /** The block the code finds for the virtual name: some Copilot block, if there is one. */
  predicate IsPick(cfg: Config, pick: Option<Upstream>) {
    match pick
    case None => forall n :: n in cfg ==> !cfg[n].isCopilot
    case Some(u) => u.isCopilot && exists n :: n in cfg && cfg[n] == u
  }

  /**
   On a route the rule rejects, every target with an entry of its own is rejected by tier. The filter
   keeps a name it finds no entry for, even when the rule resolved it through a Copilot block.
   */
  lemma RejectedRouteSurvivors(cfg: Config, pick: Option<Upstream>, limits: Limits, names: seq<string>,
                               tokens: Tokens, probe: Probe, chain: seq<BackendTarget>, t: BackendTarget)
    requires !PossibleMinTier(cfg, pick, limits, names)
    requires forall n :: n in names <==> exists t :: t in chain && t.provider == n
    ensures t in Survivors(limits, tokens, cfg, probe, chain) <==> t in chain && t.provider !in cfg
  {
    SurvivesIffNotRejected(limits, tokens, cfg, probe, chain, t);
    if t in chain {
      assert t.provider in names;
      assert !Meets(cfg, pick, limits.minTier.value, t.provider);
    }
  }
}

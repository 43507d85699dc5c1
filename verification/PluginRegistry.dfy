/**
 Building the plugin registry from configuration, and the per-request lookup. The three phases
 index factories, instantiate plugins and resolve routes into plans; `PlanFor` is the linear scan
 of the route list that a lookup is meant to agree with.
 */
module PluginRegistry {
  import opened Wrappers
  import opened Sequences

  datatype Hook = DecodedRequest | Resolved | StreamEvent | ResponseComplete

  datatype FrontendKind = AnthropicMessages | OpenAiChat | OpenAiResponses

  datatype PluginSpec = PluginSpec(name: string, kind: string, enabled: bool)

  /** An instantiated plugin: its spec and the hooks it subscribes to. */
  datatype PluginEntry = PluginEntry(spec: PluginSpec, hooks: set<Hook>)

  /** What the factory of a spec's kind makes of it: the plugin's hooks, or a configuration error. */
  type Instantiate = PluginSpec -> Result<set<Hook>, string>

  datatype RoutePlugins = RoutePlugins(
    onDecodedRequest: seq<string>,
    onResolved: seq<string>,
    onStreamEvent: seq<string>,
    onResponseComplete: seq<string>)

  datatype Route = Route(frontend: string, model: string, plugins: Option<RoutePlugins>)

  datatype Plan = Plan(
    onDecodedRequest: seq<PluginEntry>,
    onResolved: seq<PluginEntry>,
    onStreamEvent: seq<PluginEntry>,
    onResponseComplete: seq<PluginEntry>)

  datatype FrontendPlans = FrontendPlans(specific: map<string, Plan>, wildcard: Option<Plan>)

  type Plans = map<FrontendKind, FrontendPlans>

  datatype BuildError =
    | DuplicateFactoryKind(kind: string)
    | UnknownKind(plugin: string, kind: string)
    | Instantiation(plugin: string, message: string)
    | UnknownFrontend(frontend: string)
    | UndeclaredPluginReference(hook: Hook, plugin: string)
    | HookSubscriptionMismatch(hook: Hook, plugin: string)

  function ParseFrontend(name: string): Option<FrontendKind> {
    if name == "anthropic" || name == "anthropic_messages" then Some(AnthropicMessages)
    else if name == "openai" || name == "openai_chat" then Some(OpenAiChat)
    else if name == "openai_responses" || name == "responses" then Some(OpenAiResponses)
    else None
  }

  /** Six names for three frontends. */
  lemma FrontendNames(name: string)
    ensures ParseFrontend(name) == Some(AnthropicMessages) <==> name in ["anthropic", "anthropic_messages"]
    ensures ParseFrontend(name) == Some(OpenAiChat) <==> name in ["openai", "openai_chat"]
    ensures ParseFrontend(name) == Some(OpenAiResponses) <==> name in ["openai_responses", "responses"]
  {
  }

  predicate IsEmpty(rp: RoutePlugins) {
    rp.onDecodedRequest == [] && rp.onResolved == [] && rp.onStreamEvent == [] && rp.onResponseComplete == []
  }

  // ---- phase 1 and 2 ----

  predicate Distinct(kinds: seq<string>) {
    forall i, j :: 0 <= i < j < |kinds| ==> kinds[i] != kinds[j]
  }

  predicate Instantiable(kinds: seq<string>, make: Instantiate, spec: PluginSpec) {
    spec.kind in kinds && make(spec).Ok?
  }

  /** The entry a name stands for: that of the last spec declaring it. */
  function EntryFor(specs: seq<PluginSpec>, make: Instantiate, name: string): Option<PluginEntry> {
    if specs == [] then None
    else
      var last := specs[|specs| - 1];
      if last.name == name && make(last).Ok? then Some(PluginEntry(last, make(last).value))
      else EntryFor(specs[..|specs| - 1], make, name)
  }

  /** The plugin table: later declarations of a name replace earlier ones. */
  function PluginsOf(specs: seq<PluginSpec>, make: Instantiate): map<string, PluginEntry> {
    if specs == [] then map[]
    else
      var last := specs[|specs| - 1];
      var before := PluginsOf(specs[..|specs| - 1], make);
      if make(last).Ok? then before[last.name := PluginEntry(last, make(last).value)] else before
  }

  lemma {:induction false} PluginsOfIsLast(specs: seq<PluginSpec>, make: Instantiate, name: string)
    ensures EntryFor(specs, make, name) ==
            if name in PluginsOf(specs, make) then Some(PluginsOf(specs, make)[name]) else None
  {
    if specs != [] {
      PluginsOfIsLast(specs[..|specs| - 1], make, name);
    }
  }

  /** The errors of phase 1 and 2, position by position. */
  function DuplicateAt(kinds: seq<string>): nat -> Option<BuildError> {
    (i: nat) => if i < |kinds| && kinds[i] in kinds[..i] then Some(DuplicateFactoryKind(kinds[i])) else None
  }

  function SpecErrorAt(kinds: seq<string>, specs: seq<PluginSpec>, make: Instantiate): nat -> Option<BuildError> {
    (i: nat) => if i >= |specs| then None
         else if specs[i].kind !in kinds then Some(UnknownKind(specs[i].name, specs[i].kind))
         else if make(specs[i]).Err? then Some(Instantiation(specs[i].name, make(specs[i]).error))
         else None
  }

  /** The first configuration error of phase 1, else of phase 2. */
  function IndexError(kinds: seq<string>, specs: seq<PluginSpec>, make: Instantiate): Option<BuildError> {
    var duplicate := First(DuplicateAt(kinds), |kinds|);
    if duplicate.Some? then duplicate else First(SpecErrorAt(kinds, specs, make), |specs|)
  }

  /** Phase 1: the factories by kind; only the set of kinds matters here. */
  method IndexFactories(kinds: seq<string>) returns (r: Result<set<string>, BuildError>)
    ensures r.Ok? <==> Distinct(kinds)
    ensures r.Ok? ==> forall k :: k in r.value <==> k in kinds
    ensures First(DuplicateAt(kinds), |kinds|) == if r.Ok? then None else Some(r.error)
  {
    var seen: set<string> := {};
    for i := 0 to |kinds|
      invariant First(DuplicateAt(kinds), i).None?
      invariant forall k :: k in seen <==> k in kinds[..i]
      invariant Distinct(kinds[..i])
    {
      assert kinds[..i + 1] == kinds[..i] + [kinds[i]];
      if kinds[i] in seen {
        FirstStays(DuplicateAt(kinds), i + 1, |kinds|);
        return Err(DuplicateFactoryKind(kinds[i]));
      }
      seen := seen + {kinds[i]};
    }
    assert kinds[..|kinds|] == kinds;
    return Ok(seen);
  }

  /** Phase 2: one entry for each spec, in declaration order. */
  method InstantiateAll(seen: set<string>, ghost kinds: seq<string>, specs: seq<PluginSpec>, make: Instantiate)
    returns (r: Result<map<string, PluginEntry>, BuildError>)
    requires forall k :: k in seen <==> k in kinds
    ensures r.Ok? <==> forall i :: 0 <= i < |specs| ==> Instantiable(kinds, make, specs[i])
    ensures r.Ok? ==> r.value == PluginsOf(specs, make)
    ensures First(SpecErrorAt(kinds, specs, make), |specs|) == if r.Ok? then None else Some(r.error)
  {
    var plugins: map<string, PluginEntry> := map[];
    for i := 0 to |specs|
      invariant First(SpecErrorAt(kinds, specs, make), i).None?
      invariant forall j :: 0 <= j < i ==> Instantiable(kinds, make, specs[j])
      invariant plugins == PluginsOf(specs[..i], make)
    {
      var spec := specs[i];
      assert specs[..i + 1][..i] == specs[..i];
      if spec.kind !in seen {
        FirstStays(SpecErrorAt(kinds, specs, make), i + 1, |specs|);
        return Err(UnknownKind(spec.name, spec.kind));
      }
      var made := make(spec);
      if made.Err? {
        FirstStays(SpecErrorAt(kinds, specs, make), i + 1, |specs|);
        return Err(Instantiation(spec.name, made.error));
      }
      plugins := plugins[spec.name := PluginEntry(spec, made.value)];
    }
    assert specs[..|specs|] == specs;
    return Ok(plugins);
  }

  method IndexPlugins(kinds: seq<string>, specs: seq<PluginSpec>, make: Instantiate)
    returns (r: Result<map<string, PluginEntry>, BuildError>)
    ensures r.Ok? <==> Distinct(kinds) && forall i :: 0 <= i < |specs| ==> Instantiable(kinds, make, specs[i])
    ensures r.Ok? ==> r.value == PluginsOf(specs, make)
    ensures IndexError(kinds, specs, make) == if r.Ok? then None else Some(r.error)
  {
    var indexed := IndexFactories(kinds);
    if indexed.Err? {
      return Err(indexed.error);
    }
    r := InstantiateAll(indexed.value, kinds, specs, make);
  }

  // ---- phase 3 ----

  predicate Referable(plugins: map<string, PluginEntry>, hook: Hook, name: string) {
    name in plugins && hook in plugins[name].hooks
  }

  /** The enabled plugins of a list, in declared order. */
  function EnabledOf(plugins: map<string, PluginEntry>, names: seq<string>): seq<PluginEntry> {
    if names == [] then []
    else
      var name := names[|names| - 1];
      EnabledOf(plugins, names[..|names| - 1]) +
      (if name in plugins && plugins[name].spec.enabled then [plugins[name]] else [])
  }

  function NameErrorAt(plugins: map<string, PluginEntry>, hook: Hook, names: seq<string>): nat -> Option<BuildError> {
    (i: nat) => if i >= |names| then None
         else if names[i] !in plugins then Some(UndeclaredPluginReference(hook, names[i]))
         else if hook !in plugins[names[i]].hooks then Some(HookSubscriptionMismatch(hook, names[i]))
         else None
  }

  function HookError(plugins: map<string, PluginEntry>, hook: Hook, names: seq<string>): Option<BuildError> {
    First(NameErrorAt(plugins, hook, names), |names|)
  }

  method ResolveHook(plugins: map<string, PluginEntry>, hook: Hook, names: seq<string>)
    returns (r: Result<seq<PluginEntry>, BuildError>)
    ensures r.Ok? <==> forall n :: n in names ==> Referable(plugins, hook, n)
    ensures r.Ok? ==> r.value == EnabledOf(plugins, names)
    ensures HookError(plugins, hook, names) == if r.Ok? then None else Some(r.error)
  {
    var out := [];
    for i := 0 to |names|
      invariant First(NameErrorAt(plugins, hook, names), i).None?
      invariant forall j :: 0 <= j < i ==> Referable(plugins, hook, names[j])
      invariant out == EnabledOf(plugins, names[..i])
    {
      var name := names[i];
      assert names[..i + 1][..i] == names[..i];
      if name !in plugins {
        assert !Referable(plugins, hook, name);
        FirstStays(NameErrorAt(plugins, hook, names), i + 1, |names|);
        return Err(UndeclaredPluginReference(hook, name));
      }
      if hook !in plugins[name].hooks {
        assert !Referable(plugins, hook, name);
        FirstStays(NameErrorAt(plugins, hook, names), i + 1, |names|);
        return Err(HookSubscriptionMismatch(hook, name));
      }
      if plugins[name].spec.enabled {
        out := out + [plugins[name]];
      }
    }
    assert names[..|names|] == names;
    return Ok(out);
  }

  predicate PluginsOk(plugins: map<string, PluginEntry>, rp: RoutePlugins) {
    && (forall n :: n in rp.onDecodedRequest ==> Referable(plugins, DecodedRequest, n))
    && (forall n :: n in rp.onResolved ==> Referable(plugins, Resolved, n))
    && (forall n :: n in rp.onStreamEvent ==> Referable(plugins, StreamEvent, n))
    && (forall n :: n in rp.onResponseComplete ==> Referable(plugins, ResponseComplete, n))
  }

  function PlanOf(plugins: map<string, PluginEntry>, rp: RoutePlugins): Plan {
    Plan(EnabledOf(plugins, rp.onDecodedRequest), EnabledOf(plugins, rp.onResolved),
         EnabledOf(plugins, rp.onStreamEvent), EnabledOf(plugins, rp.onResponseComplete))
  }

  predicate HasPlan(route: Route) {
    route.plugins.Some? && !IsEmpty(route.plugins.value)
  }

  predicate RouteOk(plugins: map<string, PluginEntry>, route: Route) {
    ParseFrontend(route.frontend).Some? && (HasPlan(route) ==> PluginsOk(plugins, route.plugins.value))
  }

  /** The hooks are resolved in this order, and the first error ends the build. */
  function PlanError(plugins: map<string, PluginEntry>, rp: RoutePlugins): Option<BuildError> {
    var h2 := HookError(plugins, DecodedRequest, rp.onDecodedRequest);
    var h3 := HookError(plugins, Resolved, rp.onResolved);
    var h5 := HookError(plugins, StreamEvent, rp.onStreamEvent);
    if h2.Some? then h2 else if h3.Some? then h3 else if h5.Some? then h5
    else HookError(plugins, ResponseComplete, rp.onResponseComplete)
  }

  function RouteError(plugins: map<string, PluginEntry>, route: Route): Option<BuildError> {
    if ParseFrontend(route.frontend).None? then Some(UnknownFrontend(route.frontend))
    else if HasPlan(route) then PlanError(plugins, route.plugins.value)
    else None
  }

  function RouteErrorAt(plugins: map<string, PluginEntry>, routes: seq<Route>): nat -> Option<BuildError> {
    (i: nat) => if i < |routes| then RouteError(plugins, routes[i]) else None
  }

  /** The error a build ends with: the first of the first phase that has one. */
  function FirstBuildError(kinds: seq<string>, specs: seq<PluginSpec>, make: Instantiate, routes: seq<Route>): Option<BuildError> {
    var index := IndexError(kinds, specs, make);
    if index.Some? then index else First(RouteErrorAt(PluginsOf(specs, make), routes), |routes|)
  }

  method ResolvePlan(plugins: map<string, PluginEntry>, rp: RoutePlugins) returns (r: Result<Plan, BuildError>)
    ensures r.Ok? <==> PluginsOk(plugins, rp)
    ensures r.Ok? ==> r.value == PlanOf(plugins, rp)
    ensures PlanError(plugins, rp) == if r.Ok? then None else Some(r.error)
  {
    var h2 := ResolveHook(plugins, DecodedRequest, rp.onDecodedRequest);
    if h2.Err? { return Err(h2.error); }
    var h3 := ResolveHook(plugins, Resolved, rp.onResolved);
    if h3.Err? { return Err(h3.error); }
    var h5 := ResolveHook(plugins, StreamEvent, rp.onStreamEvent);
    if h5.Err? { return Err(h5.error); }
    var h7 := ResolveHook(plugins, ResponseComplete, rp.onResponseComplete);
    if h7.Err? { return Err(h7.error); }
    return Ok(Plan(h2.value, h3.value, h5.value, h7.value));
  }

  /** The last route of a frontend kind (aliases merged) with a plugins block and exactly this model. */
  function LastRoute(routes: seq<Route>, kind: FrontendKind, model: string): Option<RoutePlugins> {
    if routes == [] then None
    else
      var last := routes[|routes| - 1];
      if HasPlan(last) && ParseFrontend(last.frontend) == Some(kind) && last.model == model then last.plugins
      else LastRoute(routes[..|routes| - 1], kind, model)
  }

  /** The linear scan: the last exact route, else the last `*` route. */
  function PlanFor(routes: seq<Route>, plugins: map<string, PluginEntry>, kind: FrontendKind, model: string): Option<Plan> {
    match LastRoute(routes, kind, model)
    case Some(rp) => Some(PlanOf(plugins, rp))
    case None =>
      match LastRoute(routes, kind, "*")
      case Some(rp) => Some(PlanOf(plugins, rp))
      case None => None
  }

  /** The fast-path lookup. */
  function Lookup(plans: Plans, kind: FrontendKind, model: string): Option<Plan> {
    if kind !in plans then None
    else if model in plans[kind].specific then Some(plans[kind].specific[model])
    else plans[kind].wildcard
  }

  function Specific(plans: Plans, kind: FrontendKind, model: string): Option<Plan> {
    if kind in plans && model in plans[kind].specific then Some(plans[kind].specific[model]) else None
  }

  function Wildcard(plans: Plans, kind: FrontendKind): Option<Plan> {
    if kind in plans then plans[kind].wildcard else None
  }

  function Planned(plugins: map<string, PluginEntry>, rp: Option<RoutePlugins>): Option<Plan> {
    if rp.Some? then Some(PlanOf(plugins, rp.value)) else None
  }

  /** The index holds, for each kind and model, the plan of the last such route. */
  ghost predicate Indexes(plans: Plans, routes: seq<Route>, plugins: map<string, PluginEntry>) {
    && (forall k, m :: Specific(plans, k, m) ==
                       if m == "*" then None else Planned(plugins, LastRoute(routes, k, m)))
    && (forall k :: Wildcard(plans, k) == Planned(plugins, LastRoute(routes, k, "*")))
  }

  function Insert(plans: Plans, kind: FrontendKind, model: string, plan: Plan): Plans {
    var fp := if kind in plans then plans[kind] else FrontendPlans(map[], None);
    plans[kind := if model == "*" then fp.(wildcard := Some(plan)) else fp.(specific := fp.specific[model := plan])]
  }

  lemma IndexesStep(plans: Plans, routes: seq<Route>, plugins: map<string, PluginEntry>, i: nat)
    requires i < |routes| && Indexes(plans, routes[..i], plugins) && ParseFrontend(routes[i].frontend).Some?
    ensures var route := routes[i];
            var after := if HasPlan(route)
                         then Insert(plans, ParseFrontend(route.frontend).value, route.model, PlanOf(plugins, route.plugins.value))
                         else plans;
            Indexes(after, routes[..i + 1], plugins)
  {
    var route, upto := routes[i], routes[..i + 1];
    assert upto[..i] == routes[..i];
    var after := if HasPlan(route)
                 then Insert(plans, ParseFrontend(route.frontend).value, route.model, PlanOf(plugins, route.plugins.value))
                 else plans;
    forall k, m
      ensures Specific(after, k, m) == if m == "*" then None else Planned(plugins, LastRoute(upto, k, m))
    {
      assert Specific(plans, k, m) == if m == "*" then None else Planned(plugins, LastRoute(routes[..i], k, m));
    }
    forall k
      ensures Wildcard(after, k) == Planned(plugins, LastRoute(upto, k, "*"))
    {
      assert Wildcard(plans, k) == Planned(plugins, LastRoute(routes[..i], k, "*"));
    }
  }

  datatype Built = Built(plugins: map<string, PluginEntry>, plans: Plans)

  /** The registry builds exactly if every declaration and reference checks out, and then lookup is the linear scan. */
  method Build(kinds: seq<string>, specs: seq<PluginSpec>, make: Instantiate, routes: seq<Route>)
    returns (r: Result<Built, BuildError>)
    ensures r.Ok? ==>
            && (forall name :: EntryFor(specs, make, name) ==
                               if name in r.value.plugins then Some(r.value.plugins[name]) else None)
            && (forall kind, model :: Lookup(r.value.plans, kind, model) ==
                                      PlanFor(routes, r.value.plugins, kind, model))
    ensures r.Ok? <==>
            && Distinct(kinds) && (forall i :: 0 <= i < |specs| ==> Instantiable(kinds, make, specs[i]))
            && (forall i :: 0 <= i < |routes| ==> RouteOk(PluginsOf(specs, make), routes[i]))
    ensures FirstBuildError(kinds, specs, make, routes) == if r.Ok? then None else Some(r.error)
  {
    var indexed := IndexPlugins(kinds, specs, make);
    if indexed.Err? {
      return Err(indexed.error);
    }
    var entries := indexed.value;
    var plans := ResolveRoutes(entries, routes);
    NoRouteErrorIff(entries, routes);
    if plans.Err? {
      return Err(plans.error);
    }
    LookupIsScan(plans.value, routes, entries);
    forall name
      ensures EntryFor(specs, make, name) == if name in entries then Some(entries[name]) else None
    {
      PluginsOfIsLast(specs, make, name);
    }
    return Ok(Built(entries, plans.value));
  }

  /** Phase 3: the plans, route by route. */
  method ResolveRoutes(entries: map<string, PluginEntry>, routes: seq<Route>) returns (r: Result<Plans, BuildError>)
    ensures r.Ok? ==> Indexes(r.value, routes, entries)
    ensures First(RouteErrorAt(entries, routes), |routes|) == if r.Ok? then None else Some(r.error)
  {
    var plans: Plans := map[];
    for i := 0 to |routes|
      invariant First(RouteErrorAt(entries, routes), i).None?
      invariant Indexes(plans, routes[..i], entries)
    {
      IndexesStepIfKnown(plans, routes, entries, i);
      var plan := ResolveRoute(entries, routes[i]);
      if plan.Err? {
        FirstStays(RouteErrorAt(entries, routes), i + 1, |routes|);
        return Err(plan.error);
      }
      if plan.value.Some? {
        plans := Insert(plans, ParseFrontend(routes[i].frontend).value, routes[i].model, plan.value.value);
      }
    }
    assert routes[..|routes|] == routes;
    return Ok(plans);
  }

  lemma HookErrorIff(plugins: map<string, PluginEntry>, hook: Hook, names: seq<string>)
    ensures HookError(plugins, hook, names).None? <==> forall n :: n in names ==> Referable(plugins, hook, n)
  {
    var at := NameErrorAt(plugins, hook, names);
    FirstIsNone(at, |names|);
    forall i: nat | i < |names|
      ensures at(i).None? <==> Referable(plugins, hook, names[i])
    {
    }
  }

  lemma RouteErrorIff(plugins: map<string, PluginEntry>, route: Route)
    ensures RouteError(plugins, route).None? <==> RouteOk(plugins, route)
  {
    if HasPlan(route) {
      var rp := route.plugins.value;
      HookErrorIff(plugins, DecodedRequest, rp.onDecodedRequest);
      HookErrorIff(plugins, Resolved, rp.onResolved);
      HookErrorIff(plugins, StreamEvent, rp.onStreamEvent);
      HookErrorIff(plugins, ResponseComplete, rp.onResponseComplete);
    }
  }

  lemma NoRouteErrorIff(plugins: map<string, PluginEntry>, routes: seq<Route>)
    ensures First(RouteErrorAt(plugins, routes), |routes|).None? <==>
            forall i :: 0 <= i < |routes| ==> RouteOk(plugins, routes[i])
  {
    var at := RouteErrorAt(plugins, routes);
    FirstIsNone(at, |routes|);
    forall i: nat | i < |routes|
      ensures at(i).None? <==> RouteOk(plugins, routes[i])
    {
      RouteErrorIff(plugins, routes[i]);
    }
  }

  /** One route: its plan, if it has a plugins block. */
  method ResolveRoute(entries: map<string, PluginEntry>, route: Route) returns (r: Result<Option<Plan>, BuildError>)
    ensures r.Ok? ==> ParseFrontend(route.frontend).Some?
    ensures r.Ok? ==> r.value == if HasPlan(route) then Some(PlanOf(entries, route.plugins.value)) else None
    ensures RouteError(entries, route) == if r.Ok? then None else Some(r.error)
  {
    if ParseFrontend(route.frontend).None? {
      return Err(UnknownFrontend(route.frontend));
    }
    if !HasPlan(route) {
      return Ok(None);
    }
    var plan := ResolvePlan(entries, route.plugins.value);
    return if plan.Ok? then Ok(Some(plan.value)) else Err(plan.error);
  }

  lemma IndexesStepIfKnown(plans: Plans, routes: seq<Route>, plugins: map<string, PluginEntry>, i: nat)
    requires i < |routes| && Indexes(plans, routes[..i], plugins)
    ensures ParseFrontend(routes[i].frontend).Some? ==>
            Indexes(if HasPlan(routes[i])
                    then Insert(plans, ParseFrontend(routes[i].frontend).value, routes[i].model,
                                PlanOf(plugins, routes[i].plugins.value))
                    else plans, routes[..i + 1], plugins)
  {
    if ParseFrontend(routes[i].frontend).Some? {
      IndexesStep(plans, routes, plugins, i);
    }
  }

  lemma LookupIsScan(plans: Plans, routes: seq<Route>, plugins: map<string, PluginEntry>)
    requires Indexes(plans, routes, plugins)
    ensures forall kind, model :: Lookup(plans, kind, model) == PlanFor(routes, plugins, kind, model)
  {
    forall kind, model
      ensures Lookup(plans, kind, model) == PlanFor(routes, plugins, kind, model)
    {
      assert Specific(plans, kind, model) == if model == "*" then None else Planned(plugins, LastRoute(routes, kind, model));
      assert Wildcard(plans, kind) == Planned(plugins, LastRoute(routes, kind, "*"));
    }
  }

  /** A plan lists only declared, enabled plugins that subscribe to the hook, in the order the route lists them. */
  lemma {:induction false} PlanListsSubscribers(plugins: map<string, PluginEntry>, hook: Hook, names: seq<string>, i: nat)
    requires forall n :: n in names ==> Referable(plugins, hook, n)
    requires i < |EnabledOf(plugins, names)|
    ensures var e := EnabledOf(plugins, names)[i];
            e.spec.enabled && hook in e.hooks && exists n :: n in names && n in plugins && plugins[n] == e
  {
    var init, name := names[..|names| - 1], names[|names| - 1];
    assert forall n :: n in init ==> n in names;
    assert name in names;
    if i < |EnabledOf(plugins, init)| {
      PlanListsSubscribers(plugins, hook, init, i);
    }
  }

  lemma {:induction false} EnabledPrefix(plugins: map<string, PluginEntry>, names: seq<string>, n: nat)
    requires n <= |names|
    ensures EnabledOf(plugins, names[..n]) <= EnabledOf(plugins, names)
    decreases |names|
  {
    if n == |names| {
      assert names[..n] == names;
    } else {
      var init := names[..|names| - 1];
      assert init[..n] == names[..n];
      EnabledPrefix(plugins, init, n);
    }
  }

  /** In declared order and with nothing left out: an enabled name is the next entry of the list. */
  lemma EnabledInOrder(plugins: map<string, PluginEntry>, names: seq<string>, i: nat)
    requires i < |names| && names[i] in plugins && plugins[names[i]].spec.enabled
    ensures |EnabledOf(plugins, names[..i])| < |EnabledOf(plugins, names)|
    ensures EnabledOf(plugins, names)[|EnabledOf(plugins, names[..i])|] == plugins[names[i]]
  {
    EnabledPrefix(plugins, names, i + 1);
    assert names[..i + 1][..i] == names[..i];
  }

  /** And with nothing added: the list has one entry for each position of an enabled name. */
  lemma {:induction false} EnabledCount(plugins: map<string, PluginEntry>, names: seq<string>)
    ensures |EnabledOf(plugins, names)| ==
            |set i | 0 <= i < |names| && names[i] in plugins && plugins[names[i]].spec.enabled|
  {
    if names != [] {
      var n := |names| - 1;
      EnabledCount(plugins, names[..n]);
      var before := set i | 0 <= i < n && names[..n][i] in plugins && plugins[names[..n][i]].spec.enabled;
      var all := set i | 0 <= i < |names| && names[i] in plugins && plugins[names[i]].spec.enabled;
      assert all == if names[n] in plugins && plugins[names[n]].spec.enabled then before + {n} else before;
    }
  }

  /** Route i is the last with a non-empty plugins block for this frontend kind and exactly this model. */
  predicate IsLastRoute(routes: seq<Route>, kind: FrontendKind, model: string, i: nat) {
    && i < |routes| && Applies(routes[i], kind, model)
    && forall j :: i < j < |routes| ==> !Applies(routes[j], kind, model)
  }

  predicate Applies(route: Route, kind: FrontendKind, model: string) {
    && ParseFrontend(route.frontend) == Some(kind) && route.model == model && route.plugins.Some?
    && (route.plugins.value.onDecodedRequest != [] || route.plugins.value.onResolved != [] ||
        route.plugins.value.onStreamEvent != [] || route.plugins.value.onResponseComplete != [])
  }

  lemma {:induction false} LastRouteIs(routes: seq<Route>, kind: FrontendKind, model: string) returns (i: nat)
    ensures LastRoute(routes, kind, model).None? ==> forall j :: 0 <= j < |routes| ==> !Applies(routes[j], kind, model)
    ensures LastRoute(routes, kind, model).Some? ==>
            IsLastRoute(routes, kind, model, i) && routes[i].plugins == LastRoute(routes, kind, model)
  {
    i := 0;
    if routes != [] {
      var n := |routes| - 1;
      if Applies(routes[n], kind, model) {
        i := n;
      } else {
        i := LastRouteIs(routes[..n], kind, model);
        assert forall j :: 0 <= j < n ==> routes[..n][j] == routes[j];
      }
    }
  }

  /** Each hook of the plan is the enabled part of the list the route gives for that hook. */
  predicate PlansRoute(plugins: map<string, PluginEntry>, plan: Plan, route: Route) {
    && route.plugins.Some?
    && plan.onDecodedRequest == EnabledOf(plugins, route.plugins.value.onDecodedRequest)
    && plan.onResolved == EnabledOf(plugins, route.plugins.value.onResolved)
    && plan.onStreamEvent == EnabledOf(plugins, route.plugins.value.onStreamEvent)
    && plan.onResponseComplete == EnabledOf(plugins, route.plugins.value.onResponseComplete)
  }

  /** What a lookup in a built index finds, in terms of the routes: the last exact one, else the last wildcard, else nothing. */
  lemma LookupFinds(plans: Plans, routes: seq<Route>, plugins: map<string, PluginEntry>, kind: FrontendKind, model: string)
    requires Indexes(plans, routes, plugins)
    ensures var found := Lookup(plans, kind, model);
            || (found.Some? && exists i: nat :: IsLastRoute(routes, kind, model, i) && PlansRoute(plugins, found.value, routes[i]))
            || ((forall j :: 0 <= j < |routes| ==> !Applies(routes[j], kind, model))
                && (found.Some? ==> exists i: nat :: IsLastRoute(routes, kind, "*", i) && PlansRoute(plugins, found.value, routes[i]))
                && (found.None? ==> forall j :: 0 <= j < |routes| ==> !Applies(routes[j], kind, "*")))
  {
    LookupIsScan(plans, routes, plugins);
    assert Lookup(plans, kind, model) == PlanFor(routes, plugins, kind, model);
    var i := LastRouteIs(routes, kind, model);
    var w := LastRouteIs(routes, kind, "*");
    if LastRoute(routes, kind, model).Some? {
      assert PlansRoute(plugins, PlanOf(plugins, routes[i].plugins.value), routes[i]);
    } else if LastRoute(routes, kind, "*").Some? {
      assert PlansRoute(plugins, PlanOf(plugins, routes[w].plugins.value), routes[w]);
    }
  }

  lemma HookErrorNames(plugins: map<string, PluginEntry>, hook: Hook, names: seq<string>, e: BuildError)
    requires HookError(plugins, hook, names) == Some(e)
    ensures exists i: nat :: && i < |names| && !Referable(plugins, hook, names[i])
                             && (forall j: nat :: j < i ==> Referable(plugins, hook, names[j]))
                             && e == if names[i] !in plugins then UndeclaredPluginReference(hook, names[i])
                                     else HookSubscriptionMismatch(hook, names[i])
  {
    var at := NameErrorAt(plugins, hook, names);
    FirstIs(at, |names|, e);
    var i: nat :| i < |names| && at(i) == Some(e) && forall j: nat :: j < i ==> at(j).None?;
    forall j: nat | j < i
      ensures Referable(plugins, hook, names[j])
    {
      assert at(j).None?;
    }
  }

  /** Hooks are resolved in the order decoded request, resolved, stream event, response complete; the first bad one is named. */
  lemma PlanErrorHook(plugins: map<string, PluginEntry>, rp: RoutePlugins)
    ensures var bad2 := !(forall n :: n in rp.onDecodedRequest ==> Referable(plugins, DecodedRequest, n));
            var bad3 := !(forall n :: n in rp.onResolved ==> Referable(plugins, Resolved, n));
            var bad5 := !(forall n :: n in rp.onStreamEvent ==> Referable(plugins, StreamEvent, n));
            var bad7 := !(forall n :: n in rp.onResponseComplete ==> Referable(plugins, ResponseComplete, n));
            PlanError(plugins, rp) ==
              if bad2 then HookError(plugins, DecodedRequest, rp.onDecodedRequest)
              else if bad3 then HookError(plugins, Resolved, rp.onResolved)
              else if bad5 then HookError(plugins, StreamEvent, rp.onStreamEvent)
              else if bad7 then HookError(plugins, ResponseComplete, rp.onResponseComplete)
              else None
  {
    HookErrorIff(plugins, DecodedRequest, rp.onDecodedRequest);
    HookErrorIff(plugins, Resolved, rp.onResolved);
    HookErrorIff(plugins, StreamEvent, rp.onStreamEvent);
    HookErrorIff(plugins, ResponseComplete, rp.onResponseComplete);
  }

  /** Which spec an entry comes from: the last that declares the name. */
  lemma {:induction false} LastSpec(kinds: seq<string>, specs: seq<PluginSpec>, make: Instantiate, name: string) returns (i: nat)
    requires forall j :: 0 <= j < |specs| ==> Instantiable(kinds, make, specs[j])
    ensures EntryFor(specs, make, name).None? ==> forall j :: 0 <= j < |specs| ==> specs[j].name != name
    ensures EntryFor(specs, make, name).Some? ==>
            && i < |specs| && specs[i].name == name && (forall j :: i < j < |specs| ==> specs[j].name != name)
            && make(specs[i]).Ok? && EntryFor(specs, make, name).value == PluginEntry(specs[i], make(specs[i]).value)
  {
    i := 0;
    if specs != [] {
      var n := |specs| - 1;
      assert Instantiable(kinds, make, specs[n]);
      if specs[n].name == name {
        i := n;
      } else {
        assert forall j :: 0 <= j < n ==> specs[..n][j] == specs[j];
        i := LastSpec(kinds, specs[..n], make, name);
      }
    }
  }

  /** The first error of phases 1 and 2: the first repeated factory kind, else the first spec of unknown kind or bad configuration. */
  lemma IndexErrorIs(kinds: seq<string>, specs: seq<PluginSpec>, make: Instantiate, e: BuildError)
    requires IndexError(kinds, specs, make) == Some(e)
    ensures !Distinct(kinds) ==>
            exists i: nat :: i < |kinds| && Distinct(kinds[..i]) && kinds[i] in kinds[..i] && e == DuplicateFactoryKind(kinds[i])
    ensures Distinct(kinds) ==>
            exists i: nat :: && i < |specs| && (forall j: nat :: j < i ==> Instantiable(kinds, make, specs[j]))
                             && ((specs[i].kind !in kinds && e == UnknownKind(specs[i].name, specs[i].kind)) ||
                                 (specs[i].kind in kinds && make(specs[i]).Err? &&
                                  e == Instantiation(specs[i].name, make(specs[i]).error)))
  {
    var duplicates, bad := DuplicateAt(kinds), SpecErrorAt(kinds, specs, make);
    DistinctIff(kinds, |kinds|);
    assert kinds[..|kinds|] == kinds;
    if First(duplicates, |kinds|).Some? {
      FirstIs(duplicates, |kinds|, e);
      var i: nat :| i < |kinds| && duplicates(i) == Some(e) && forall j: nat :: j < i ==> duplicates(j).None?;
      DistinctIff(kinds, i);
    } else {
      FirstIsNone(duplicates, |kinds|);
      FirstIs(bad, |specs|, e);
      var i: nat :| i < |specs| && bad(i) == Some(e) && forall j: nat :: j < i ==> bad(j).None?;
      forall j: nat | j < i
        ensures Instantiable(kinds, make, specs[j])
      {
        assert bad(j).None?;
      }
    }
  }

  lemma DistinctIff(kinds: seq<string>, n: nat)
    requires n <= |kinds|
    ensures Distinct(kinds[..n]) <==> forall i: nat :: i < n ==> DuplicateAt(kinds)(i).None?
  {
    if forall i: nat :: i < n ==> DuplicateAt(kinds)(i).None? {
      forall i, j | 0 <= i < j < n
        ensures kinds[i] != kinds[j]
      {
        assert DuplicateAt(kinds)(j).None?;
        assert kinds[i] == kinds[..j][i];
      }
    } else {
      var j: nat :| j < n && DuplicateAt(kinds)(j).Some?;
      var i :| 0 <= i < j && kinds[..j][i] == kinds[j];
      assert kinds[..n][i] == kinds[..n][j];
    }
  }
}

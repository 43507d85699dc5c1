# Verified models of the gateway's resilience core, plugin runtime and stream contracts

The gateway admits a request, walks a chain of upstreams under circuit breakers and retry budgets, and streams the
answer back through plugins and an SSE encoder. These modules model that path and prove what it guarantees over every
run: every interleaving of requests, every provider behaviour, every poll schedule, every event sequence.

**Resilience core.** `CircuitBreaker` is the lock-protected breaker record, a class whose methods are proved equal to
functions on values. `BreakerLog` treats a registry as the log of its lock-protected sections and proves what every legal
log satisfies; `SlidingWindow` proves that the incrementally evicted sample deque is a filter of the full history.
`Registry` is the shared registry with its RAII holds: its invariant says that the ghost log is legal and that every
breaker object has the value the log gives it, so the log theorems hold of every reachable registry. `Admission`
issues tickets, `ChainWalk` and `Retry` consume provider outcomes, and `ResilientCaller` follows a ticket into the
response stream and to its end. `Accounting` says what a ticket owes the breakers. The classes run one request at a
time; `Interleaving` takes the same lock-protected steps for any number of requests in any order, `Refinement` proves
that a whole request through the classes is a run of those steps, and `GetOrCreate` treats the double-checked creation
of registry entries. `CostFilter` and `Fallback` are the pieces admission and the walk depend on.

**Stream contracts.** `Lifecycle` states the canonical stream lifecycle as a grammar over whole traces and proves the
one-pass validator equivalent to it, for every setting of its toggles. `Sse` proves the framing against a decoder
written from sections 9.2.5 and 9.2.6 of the WHATWG HTML Living Standard, and `Keepalive` the ping wrapper.

**Plugins and names.** `PluginStream` proves the level-by-level event expansion equal to event-at-a-time composition,
`PluginWalk` the request-hook walk, `PluginRegistry` the route index against a linear scan, `Supervisor` the pending
counter under concurrent completion, and `ModelIndex` that fuzzy resolution is an order-independent argmax.

Provider calls, jitter draws, limiter answers, plugin behaviour and poll answers are parameters, so every statement
quantifies over them. A clock reading may find that any amount of time has passed. Instants are naturals; `f64`
quantities are reals. `dafny verify dfyconfig.toml` checks the project.

## Where the code and its documentation disagree

The models follow the code. For each of these there is an input on which they differ and the exact condition under
which they do not.

- *A breaker trips when the failure rate exceeds the threshold* (`circuit_breaker.rs:6-8`): it trips at the threshold
  too. `CircuitBreaker.TripsAtTheThreshold`, `CircuitBreaker.TripsAsDocumentedIff`.
- *A single half-open probe* (`circuit_breaker.rs:13-15`, `:117-119`): a stale record clears the flag while a probe is
  still outstanding. `BreakerLog.TwoProbesOutstanding`, `BreakerLog.SecondProbeExactly`. What does hold is
  `BreakerLog.ProbesSeparated`.
- *Open until the cooldown elapses* (`circuit_breaker.rs:11-12`): a late success of an earlier hold closes the breaker at
  once. `BreakerLog.LateSuccessCloses`, `BreakerLog.OpenUntilSuccess`.
- *Backoff stays inside the jitter band* (`retry.rs:48-49`): rounding to whole milliseconds can leave it by up to half a
  millisecond. `Retry.RoundingLeavesBand`, `Retry.AlwaysInBandIff`.
- *A plugin failure stops the wrapped stream* (`registry.rs:521-523`): later upstream events are still handled.
  `PluginStream.GoesOnAfterFailure`, `PluginStream.StopsAfterFailureIff`, `PluginStream.NeverStopsIfNothingDropped`.
- *Nothing may follow ResponseStop* (`lifecycle.rs:37`): a first ResponseStart is not checked there.
  `Lifecycle.LateResponseStartAccepted`, `Lifecycle.NothingAfterResponseStopIff`.
- *Exactly one ResponseStart, then MessageStart, before any block* (`CONTEXT.md:84`): the validator accepts streams with
  no ResponseStart. `Lifecycle.NoStartAccepted`, `Lifecycle.OpensAsDocumentedIff`.
- *A route that fails the min_tier rule would answer NoEligibleUpstream for ever* (`validation.rs:325-327`): it is always
  refused, but as an unknown provider if the rule resolved `copilot` through a block of another name.
  `Admission.VirtualNameIsUnknownProvider`, `Admission.RejectedRouteIsRefused`.
- *Dropping an unconsumed ticket releases every slot* (`CONTEXT.md:142`): each hold it still has records a failure
  (`admission.rs:66-68` says so). `Admission.IssuedTicketNeverDropsSilently`, `Admission.SilentIff`.

## Model

| member | source | states |
|---|---|---|
| `CircuitBreaker.BreakerState.Record` | crates/router/src/circuit_breaker.rs:157-206 | The record operation, eviction loop and transitions included, has exactly the effect of the breaker's value-level step on all three fields. |
| `CircuitBreaker.BreakerState.Decision` | crates/router/src/circuit_breaker.rs:219-243 | Allow iff disabled or closed; Probe iff open, no probe in flight and the cooldown, added to the opening instant, is over; the only side effect is the probe flag, set exactly on Probe. |
| `CircuitBreaker.DropStaleIsSuffix` | crates/router/src/circuit_breaker.rs:162-171 | Eviction removes a run of stale samples from the front and nothing else. |
| `CircuitBreaker.TripsIsRatio` | crates/router/src/circuit_breaker.rs:193-201 | Integer division included, the trip test is the exact ratio test: enough samples and 100*failures >= threshold*total. |
| `CircuitBreaker.FailuresCount` | crates/router/src/circuit_breaker.rs:198-200 | The failures of a window are the number of its failed samples. |
| `CircuitBreaker.TripsAsDocumentedIff` | crates/router/src/circuit_breaker.rs:6-10 | The trip test agrees with the documented "exceeds" iff the rate of a large enough window is not exactly the threshold. |
| `CircuitBreaker.TripsAtTheThreshold` | crates/router/src/circuit_breaker.rs:193-205 | A window that trips although its rate does not exceed the threshold. |
| `BreakerLog.RecordsMatchHolds` | crates/router/src/circuit_breaker.rs:80-106 | In every legal log each record settles an earlier hold of its own key and policy, and no hold is settled twice. |
| `BreakerLog.ProbeFlag` | crates/router/src/circuit_breaker.rs:191-235 | Under any interleaving and any per-call policies, the probe flag is set iff some granted probe has seen no record since, and then the breaker is open. |
| `BreakerLog.FlagMeansOutstandingProbe` | crates/router/src/circuit_breaker.rs:66-70 | While the flag is set, a probe issued since the key's last record is still outstanding, so whoever holds it still owes the record. |
| `BreakerLog.ProbesSeparated` | crates/router/src/circuit_breaker.rs:225-240 | Between any two probe authorisations on one key lies a record on that key. |
| `BreakerLog.NotWedged` | crates/router/src/circuit_breaker.rs:64-71 | With no hold outstanding on a key, an enabled request not earlier than the last record is refused iff the breaker is open since s and now < s + cooldown. |
| `BreakerLog.FailureRestartsCooldown` | crates/router/src/circuit_breaker.rs:184-192 | A failure at t on a breaker open since s restarts the cooldown at t iff s + cooldown <= t, and otherwise leaves s. |
| `BreakerLog.SecondProbeExactly` | crates/router/src/circuit_breaker.rs:13-15 | With a probe still outstanding after the cooldown, a second is granted iff every probe so far has been followed by a record. |
| `BreakerLog.TwoProbesOutstanding` | crates/router/src/circuit_breaker.rs:187-192 | A legal run that ends with two probe holds outstanding on one key. |
| `BreakerLog.OpenUntilSuccess` | crates/router/src/circuit_breaker.rs:171-192 | An open breaker is open after every event of a continuation iff the continuation records no success on its key, cooldowns or not. |
| `BreakerLog.LateSuccessCloses` | crates/router/src/circuit_breaker.rs:175-192 | A legal run that opens a breaker at 0 and closes it at 1 under a cooldown of 30. |
| `SlidingWindow.EvictIsFilter` | crates/router/src/circuit_breaker.rs:162-171 | On samples in time order, popping the stale front of an already filtered deque equals filtering the whole history to the window. |
| `SlidingWindow.DequeIsWindow` | crates/router/src/circuit_breaker.rs:157-206 | After every event of every legal log, even with changing policies, the deque is the window filter of an unevicted reference history and the open state is the reference's. |
| `SlidingWindow.HistoryIsSuffix` | crates/router/src/circuit_breaker.rs:178-183 | That reference history is the key's full record history from the last closing success, inclusive. |
| `SlidingWindow.DequeHoldsTheWindow` | crates/router/src/circuit_breaker.rs:157-206 | For one window length, a sample is in the deque iff it is among the records since the last closing success and not more than the window older than the last record. |
| `SlidingWindow.ClosedTripsIffWindowFails` | crates/router/src/circuit_breaker.rs:157-206 | For one window length, a record on a closed breaker opens it iff the samples of the last window, of the key's full record history since the last closing success, are enough and fail at the threshold rate or above. |
| `Registry.BreakerRegistry.GetOrCreate` | crates/router/src/circuit_breaker.rs:434-449 | Returns the key's entry, creating at most that one; no other entry appears and none is replaced. |
| `Registry.BreakerRegistry.Decide` | crates/router/src/circuit_breaker.rs:451-455 | Adds one grant event to the log and keeps the registry valid: the log legal and every breaker object at the value its own events give it. |
| `Registry.BreakerRegistry.Record` | crates/router/src/circuit_breaker.rs:458-462 | Adds one record event, settling the given hold, and keeps the registry valid; other keys' breakers keep their values. |
| `Registry.BreakerRegistry.TryHold` | crates/router/src/circuit_breaker.rs:466-482 | One decision is logged; a live hold is returned iff it is not Skip. |
| `Registry.BreakerHold.Consume` | crates/router/src/circuit_breaker.rs:90-97 | Exactly one record with the given outcome, although the hold is dropped right after. |
| `Registry.BreakerHold.Drop` | crates/router/src/circuit_breaker.rs:99-106 | An unconsumed hold records one failure; a consumed one records nothing. |
| `GetOrCreate.SameKeySameObject` | crates/router/src/circuit_breaker.rs:434-449 | Under any interleaving of lookup, insert and use, two calls over a whole run return the same object iff they name the same key. |
| `GetOrCreate.EntriesAreStable` | crates/router/src/rate_limit.rs:145-160 | Along any run an entry, once present, is never replaced; the limiter registry creates its entries by the same double check. |
| `GetOrCreate.Linearizes` | crates/router/src/circuit_breaker.rs:434-463 | Each key's breaker equals the sequential run of that key's own operations in the order they took effect; other keys do not matter. |
| `Accounting.AtMostOneRecord` | crates/router/src/circuit_breaker.rs:88-106 | No hold of a legal log is recorded twice. |
| `Accounting.ExactlyOneRecordEach` | crates/router/src/admission.rs:66-89 | A legal log that has grown by a ticket's expected records has exactly one record for each of its holds, a success only for the winner. |
| `Admission.AdmissionTicket.Consume` | crates/router/src/admission.rs:72-89 | Records the outcome for the chosen index and a failure for every other hold, in chain order, nothing else; a second call records nothing. |
| `Admission.AdmissionTicket.Drop` | crates/router/src/admission.rs:30-36 | Dropping a ticket records a failure for each hold it still owns and nothing else; it records nothing iff the ticket owns no hold. |
| `Admission.SilentIff` | crates/router/src/admission.rs:66-89 | Settling a ticket leaves the log as it was iff the ticket held nothing. |
| `Admission.IssuedTicketNeverDropsSilently` | crates/router/src/admission.rs:264-272 | A ticket as `admit` issues it, dropped unconsumed, records at least one failure. |
| `Admission.CheckGates` | crates/router/src/admission.rs:169-246 | The first gate to refuse, in the order pre-chain limit, cost filter, per-upstream limits, capability, decides the error; otherwise the chain is the filter's survivors, not empty, all with a provider. |
| `Admission.NoGateRefusesIff` | crates/router/src/admission.rs:169-291 | No gate refuses iff no limiter does, some target survives, and every survivor is registered and, for a request with an image, has vision. |
| `Admission.RateLimitedIff` | crates/router/src/admission.rs:172-238 | The rejection is a limiter's iff it is the pre-chain one, or that one passes and it is the first survivor position to be refused. |
| `Admission.NoEligibleIff` | crates/router/src/admission.rs:181-223 | Refused for want of an eligible upstream iff the pre-chain check passes and nothing survives; then every position is reported. |
| `Admission.IncapableIff` | crates/router/src/admission.rs:240-291 | Refused by the capability gate iff everything before passes and some survivor is incapable; the first such decides between unknown provider and no vision. |
| `Admission.RejectedRouteIsRefused` | crates/config/src/validation.rs:325-370 | With no limiter refusing and providers registered under their upstreams' names, a route that fails rule 17 is always refused; the refusal is NoEligibleUpstream iff every listed name has an entry of its own, and UnknownProvider of a listed name otherwise. |
| `Admission.VirtualNameIsUnknownProvider` | crates/config/src/validation.rs:345-359 | Such a route, listing `copilot` virtually, that is refused as an unknown provider. |
| `Admission.TakeHolds` | crates/router/src/admission.rs:248-262 | The breakers are asked once per target in order; a position has a hold iff its answer was not Skip. |
| `Admission.Admit` | crates/router/src/admission.rs:156-273 | A rejection leaves no record (before the breaker gate, no event at all); a ticket owns every granted hold and at least one, and all its providers are registered and can see what there is to see; breakers-open is answered iff every one said Skip. |
| `Fallback.OverridesMatchDefaults` | crates/router/src/fallback.rs:22-87 | A per-route list behaves like the built-in classifier on every error iff it names its three classes and no other. |
| `Fallback.EligibleByName` | crates/router/src/fallback.rs:63-87 | Which name of the override list decides each class of error. |
| `Retry.RetryWithPolicy` | crates/router/src/retry.rs:101-203 | For every call and jitter script: attempts within bounds, all but the last result eligible errors, sleep within budget, and an eligible final error only when attempts or budget are used up. |
| `Retry.OutcomeUnique` | crates/router/src/retry.rs:101-203 | The stopping rules fix result and attempt count: no other outcome satisfies them. |
| `Retry.BackoffInBand` | crates/router/src/retry.rs:50-62 | Every backoff is within half a millisecond of the jitter band around initial*m^(attempt-1). |
| `Retry.BackoffNearFormula` | crates/router/src/retry.rs:50-62 | The same written out: within half a millisecond of initial(1-j)m^(attempt-1) and initial(1+j)m^(attempt-1). |
| `Retry.FirstBackoffIsInitial` | crates/router/src/retry.rs:50-62 | Without jitter the first backoff is exactly the configured initial one. |
| `Retry.RoundsToNearest` | crates/router/src/retry.rs:60-61 | Rounding is to the nearest millisecond, halves upwards. |
| `Retry.PowAdds` | crates/router/src/retry.rs:53-54 | The exponent law that, with the first power, fixes the multiplier's powers. |
| `Retry.SecondAttemptIff` | crates/router/src/retry.rs:148-177 | Without jitter, a first eligible failure is retried iff two attempts are allowed and the initial backoff fits in the budget. |
| `Retry.AlwaysInBandIff` | crates/router/src/retry.rs:44-62 | For every validated policy and attempt, every draw stays inside the documented band iff rounding does not lower the band's lower end and does not raise its upper end. |
| `Retry.ExactWithoutJitterIffWhole` | crates/router/src/retry.rs:44-62 | Its case without jitter: the documented exact value is met iff the base is a whole number of milliseconds. |
| `Retry.RoundingLeavesBand` | crates/router/src/retry.rs:48-49 | Two validated policies, one of them with jitter, whose second backoff lies outside the documented band. |
| `Retry.SleepAtLeastGeometric` | crates/router/src/retry.rs:148-177 | n sleeps total at least initial(1-j)(m^n-1)/(m-1) - n/2, stated without the division. |
| `Retry.SleepAtMostGeometric` | crates/router/src/retry.rs:148-177 | n sleeps total at most initial(1+j)(m^n-1)/(m-1) + n/2, stated without the division. |
| `Retry.BudgetBoundsAttempts` | crates/router/src/retry.rs:148-177 | With m > 1, jitter below 100% and a positive first backoff, the budget alone bounds the attempts of every run, whatever `max_attempts` is. |
| `ChainWalk.WalkChain` | crates/router/src/resilient_caller.rs:176-320 | The loop returns the result of the first element that stops it, or of the exhausted chain, with `tried` listing the attempted-and-failed elements in order. |
| `ChainWalk.StreamsFromFirstSuccess` | crates/router/src/resilient_caller.rs:182-281 | The walk streams from element i iff i is held and succeeds and every earlier element is unheld or failed eligibly. |
| `ChainWalk.WalkIsDetermined` | crates/router/src/resilient_caller.rs:182-319 | Holds, providers and call outcomes determine the result. |
| `ChainWalk.VisitInCalls` | crates/router/src/resilient_caller.rs:190-281 | What a visit says of the provider calls: the attempts it made, all but the last eligible errors, and the last one's result. |
| `ChainWalk.ReportsTheLatestError` | crates/router/src/resilient_caller.rs:290-303 | An exhausted chain reports the error of the last element attempted; every later element was skipped. |
| `ChainWalk.ReportsTheTerminalError` | crates/router/src/resilient_caller.rs:240-272 | A terminal error is that of the element that stopped the walk, which is the last entry of `tried`. |
| `ChainWalk.LastErrorIsSet` | crates/router/src/resilient_caller.rs:298-319 | While nothing has stopped the walk, something was tried iff the last error is set, so the `expect` cannot fire. |
| `ChainWalk.EachVisitOnce` | crates/router/src/resilient_caller.rs:182-298 | The lists partition the visited prefix, its last element included: an element without a hold is the next skipped entry, one whose calls failed the next tried entry. |
| `ChainWalk.BreakersOpenExit` | crates/router/src/resilient_caller.rs:300-312 | The breakers-open exit is taken iff the chain has elements and none is held, and it names every element in order. |
| `ChainWalk.AdmittedExits` | crates/router/src/resilient_caller.rs:188-319 | For an admitted ticket the breakers-open, missing-provider and empty-chain exits are unreachable, and the error is one a provider call returned, terminal iff not eligible. |
| `ResilientCaller.TicketStream.PollEvent` | crates/router/src/resilient_caller.rs:339-357 | The poll is passed on unchanged; the first item settles the ticket, as a success iff it is Ok and not an Error event; pending and end of stream leave ticket and log alone. |
| `ResilientCaller.TicketStream.PollBytes` | crates/gateway/src/pipeline.rs:1401-1438 | The same for raw bytes, a success iff the first chunk is Ok. |
| `ResilientCaller.Complete` | crates/router/src/resilient_caller.rs:176-320 | A stream takes the untouched ticket along; every error exit drops it, recording a failure for each hold. |
| `ResilientCaller.Dispatch` | crates/gateway/src/pipeline.rs:726-820 | The raw attempt runs on the chain head; a declined or failed attempt hands the same ticket to the walk, and no path loses it unsettled. |
| `ResilientCaller.Serve` | crates/gateway/src/pipeline.rs:726-820 | However a ticket's life ends, early drop, error and empty stream included, the log has grown by exactly its expected records. |
| `ResilientCaller.WinnerBeganWell` | crates/router/src/resilient_caller.rs:342-357 | The winner is element j iff j is where the response came from and some poll handed out a good event (a chunk on the raw path) with nothing handed out before. |
| `ResilientCaller.Handle` | crates/gateway/src/pipeline.rs:700-820 | From admission to the end of the response: a rejected request records nothing; an admitted one leaves exactly one record per granted hold, a success iff the response came from that element (the head on the raw path, the walk's outcome otherwise) and its first item was good. |
| `Interleaving.ReachedInv` | crates/router/src/admission.rs:72-89 | Every reachable state of many requests sharing a registry keeps the invariant tying the log to the requests' holds. |
| `Interleaving.OneRecordPerHold` | crates/router/src/admission.rs:66-89 | Under any interleaving, a finished request has exactly one record per hold, a success only for its winner; one still admitting, walking or streaming has none and its holds are outstanding. |
| `Interleaving.NoStrayRecords` | crates/router/src/circuit_breaker.rs:88-106 | Every record settles a hold some request owns: skipped elements and rejections contribute none. |
| `Interleaving.WinnerIff` | crates/router/src/resilient_caller.rs:182-357 | A settling request's winner is element i iff i is where its script makes the stream come from (the head on the raw path, else the walk's outcome) and its first item was good. |
| `Refinement.RunIsTrace` | crates/router/src/admission.rs:248-273 | Whatever log a request leaves that asked for its holds and settled its ticket is that of a trace of the machine, continuing any trace that led to the log it found. |
| `Refinement.HandleAsTrace` | crates/gateway/src/pipeline.rs:700-820 | One `Handle` call is such a trace: the request ends done with the call's own winner, and no other request moves. |
| `Interleaving.QuiescentNotWedged` | crates/router/src/circuit_breaker.rs:64-71 | Once every request is finished no probe flag is set, and a request is refused iff a cooldown is running. |
| `CostFilter.FilterChain` | crates/router/src/cost_filter.rs:93-178 | The loop computes the survivors, skips and notes that the per-target rejection rule describes. |
| `CostFilter.RejectionInNumbers` | crates/router/src/cost_filter.rs:110-172 | The reason for a skip from tiers, latency budget and reading, tokens, prices and cap, in the order tier, latency, cost. |
| `CostFilter.NoteAt` | crates/router/src/cost_filter.rs:128-150 | A target with a budget and no reading is the next note, and no other target makes one. |
| `CostFilter.SplitsTheChain` | crates/router/src/cost_filter.rs:93-178 | Survivors are a subsequence of the chain, and survivors and skips together number its positions. |
| `CostFilter.EachPositionOnce` | crates/router/src/cost_filter.rs:93-178 | Position by position: a target is the next survivor if no axis rejects it and the next skip, with its reason, otherwise. |
| `CostFilter.SurvivesIffNotRejected` | crates/router/src/cost_filter.rs:93-178 | A target survives iff it is in the chain and no axis rejects it. |
| `CostFilter.RelaxingKeepsSurvivors` | crates/router/src/cost_filter.rs:115-170 | With the same probe readings, raising the cap or lowering the minimum tier gives a supersequence of the survivors. |
| `CostFilter.TierAloneNeverEmpties` | crates/config/src/validation.rs:325-370 | For a route that passes rule 17 the tier axis leaves a target, the virtual `copilot` name included. |
| `CostFilter.RejectedRouteSurvivors` | crates/config/src/validation.rs:325-370 | On a route rule 17 rejects, a target survives the filter iff its name has no entry of its own. |
| `Lifecycle.Validate` | crates/protocol-tests/src/lifecycle.rs:60-244 | The one-pass validator accepts a trace iff the declarative grammar holds of it up to the first Error, for every setting of the toggles; an Error that ends the trace does not excuse open blocks. |
| `Lifecycle.AutomatonMeaning` | crates/protocol-tests/src/lifecycle.rs:96-196 | A block's automaton is open or closed iff its projection is one start, then only events of its kind, and for closed then one stop, after a tool-call stop if it is a tool block. |
| `Lifecycle.GrammarIff` | crates/protocol-tests/src/lifecycle.rs:60-244 | Passing every incremental check, with nothing left open where that matters, is the grammar over the whole trace. |
| `Lifecycle.AcceptedBlockEvent` | crates/protocol-tests/src/lifecycle.rs:96-196 | In an accepted trace a block start is its block's first event; every other block event comes while its block is open and is of its kind, and a tool block stops only after a ToolCallStop. |
| `Lifecycle.AcceptedOrder` | crates/protocol-tests/src/lifecycle.rs:64-222 | In an accepted trace under the default rules: what may follow MessageStop and ResponseStop, no bracket twice, and what must come before ResponseStop and before a block. |
| `Lifecycle.ValidatorState.Observe` | crates/protocol-tests/src/lifecycle.rs:64-222 | One iteration panics iff the event may not follow its history, and otherwise the state again reflects the history. |
| `Lifecycle.NothingAfterResponseStopIff` | crates/protocol-tests/src/lifecycle.rs:37-38 | Among accepted Error-free traces, nothing follows ResponseStop iff no ResponseStart does. |
| `Lifecycle.LateResponseStartAccepted` | crates/protocol-tests/src/lifecycle.rs:72-80 | An accepted trace with a ResponseStart after ResponseStop. |
| `Lifecycle.OpensAsDocumentedIff` | CONTEXT.md:84 | Among accepted Error-free traces: exactly one ResponseStart, a MessageStart after it and no block event before that, iff a ResponseStart comes somewhere before a MessageStart. |
| `Lifecycle.NoStartAccepted` | crates/protocol-tests/src/lifecycle.rs:72-100 | Accepted traces without a ResponseStart: the empty one, and a whole message. |
| `PluginStream.Expand` | crates/plugins/src/registry.rs:560-612 | The nested loops compute the level-by-level expansion of one upstream event, stopping at the first call to propagate. |
| `PluginStream.CallIs` | crates/plugins/src/registry.rs:560-606 | One call from the plugin's behaviour and `on_error`: disabled and skipped calls leave the event, aborts always propagate, other errors and timeouts under `fail`. |
| `PluginStream.ThroughAllConcat` | crates/plugins/src/registry.rs:570-612 | What comes of earlier events precedes what comes of later ones. |
| `PluginStream.RenderedIs` | crates/plugins/src/registry.rs:564-612 | An upstream error stays in place; an event becomes its expansion, or exactly one Error event carrying the earliest plugin's error. |
| `PluginStream.LevelsAreComposition` | crates/plugins/src/registry.rs:560-612 | Level by level equals event at a time: the same events as the list-monad composition of the enabled plugins, and failure on the same inputs. |
| `PluginStream.ErrorIsEarliest` | crates/plugins/src/registry.rs:560-612 | The error reported is e iff e is the first failure of the earliest plugin in list order that fails. |
| `PluginStream.WrapStream` | crates/plugins/src/registry.rs:526-627 | Each upstream item becomes its expansion, one Error event or itself; the two counters equal the Ok upstream events and the replaced ones; no subscribers means the upstream itself. |
| `PluginStream.OksCounted` | crates/plugins/src/registry.rs:572-572 | The event counter is the number of Ok upstream items. |
| `PluginStream.ReplacedCounted` | crates/plugins/src/registry.rs:600-604 | The failure counter is the number of upstream events on which the plugins fail. |
| `PluginStream.WrappedConcat` | crates/plugins/src/registry.rs:526-627 | Order is kept and each upstream item is handled on its own. |
| `PluginStream.StopsAfterFailureIff` | crates/plugins/src/registry.rs:521-523 | The output ends with the replaced event iff the plugins turn every later upstream item into nothing. |
| `PluginStream.GoesOnAfterFailure` | crates/plugins/src/registry.rs:521-523 | A stream that continues after a plugin failure. |
| `PluginStream.NeverStopsIfNothingDropped` | crates/plugins/src/registry.rs:521-523 | With plugins that never drop an event, the output ends with the replaced event iff the upstream does. |
| `PluginWalk.WalkRequestHook` | crates/plugins/src/registry.rs:369-439 | Each entry sees the last accepted request; Ok is the fold over exactly the calls that succeeded with protected fields intact; Err comes from the entry at which the walk stops. |
| `PluginWalk.ChangedFieldIs` | crates/plugins/src/invoke.rs:203-238 | A protected-field violation names the first of id, frontend, model and stream to differ; there is none iff all four are equal. |
| `PluginWalk.MovesXorRejects` | crates/plugins/src/invoke.rs:110-163 | For any raw result and `on_error`, an entry either yields exactly one next request or ends the walk with exactly one error. |
| `PluginWalk.WalkIsDetermined` | crates/plugins/src/registry.rs:369-439 | The rules fix what every entry sees and the result; no plugin sees a rejected output and none runs after an error. |
| `PluginRegistry.Build` | crates/plugins/src/registry.rs:773-919 | The build succeeds iff factories are distinct and every spec, frontend and reference checks out, and then lookup equals the linear scan of the routes; otherwise the error is the first one, phase by phase and in configuration order. |
| `PluginRegistry.IndexErrorIs` | crates/plugins/src/registry.rs:779-831 | The error of the first two phases is the first repeated factory kind, else the first spec of unknown kind or bad configuration. |
| `PluginRegistry.PlanErrorHook` | crates/plugins/src/registry.rs:883-887 | Hooks are checked in the order decoded request, resolved, stream event, response complete; the first bad one is reported. |
| `PluginRegistry.HookErrorNames` | crates/plugins/src/registry.rs:855-882 | Within a hook, the first name that is undeclared or unsubscribed is reported, as the one or the other. |
| `PluginRegistry.FrontendNames` | crates/plugins/src/registry.rs:836-847 | The two names of each frontend kind. |
| `PluginRegistry.LookupFinds` | crates/plugins/src/registry.rs:323-337 | What a lookup finds is, hook by hook, the enabled part of the lists of the last exact route, else of the last `*` route, else nothing. |
| `PluginRegistry.EnabledInOrder` | crates/plugins/src/registry.rs:855-882 | An enabled name is the next entry of its hook's list. |
| `PluginRegistry.EnabledCount` | crates/plugins/src/registry.rs:855-882 | The list has one entry for each position of an enabled name and no other. |
| `PluginRegistry.LastSpec` | crates/plugins/src/registry.rs:792-831 | An entry is that of the last spec declaring its name, with the hooks its factory gave it. |
| `PluginRegistry.NoRouteErrorIff` | crates/plugins/src/registry.rs:836-905 | Phase 3 has no error iff every route's frontend is known and every plugin it names is declared and subscribed. |
| `PluginRegistry.PluginsOfIsLast` | crates/plugins/src/registry.rs:792-831 | A name stands for the entry of the last spec that declares it. |
| `PluginRegistry.LookupIsScan` | crates/plugins/src/registry.rs:323-337 | Lookup is the last exact route of that frontend kind, aliases merged, with a non-empty block, else the last `*` route. |
| `PluginRegistry.ResolveHook` | crates/plugins/src/registry.rs:860-919 | A hook's list resolves iff every name is declared and subscribed, to the enabled ones in declared order. |
| `PluginRegistry.PlanListsSubscribers` | crates/plugins/src/registry.rs:860-919 | Every plugin of a plan is declared, enabled and subscribed to its hook. |
| `Supervisor.PendingIsExact` | crates/plugins/src/supervisor.rs:37-64 | Until the snapshot, under any interleaving, each name's counter equals its spawned tasks that have not decremented, and no entry is zero. |
| `Supervisor.UndoneCount` | crates/plugins/src/supervisor.rs:37-64 | Those tasks, counted by position. |
| `Supervisor.NeverSaturates` | crates/plugins/src/supervisor.rs:45-56 | A task that decrements before the snapshot finds at least one, so the saturating subtraction never saturates. |
| `Supervisor.ReportNamesTheDropped` | crates/plugins/src/supervisor.rs:66-90 | The flush reports exactly the tasks that have not decremented at the snapshot, and nothing iff all have. |
| `Supervisor.ClearedStaysClear` | crates/plugins/src/supervisor.rs:66-90 | After the snapshot the counter stays empty though surviving tasks may still run their decrement. |
| `ModelIndex.TokensArePieces` | crates/router/src/model_index.rs:27-33 | Tokens are non-empty and free of separators, and together they are the lower-case name without its separators. |
| `ModelIndex.TokensSplitAtSeparators` | crates/router/src/model_index.rs:27-33 | A separator anywhere in a name divides its tokens into those before it and those after it. |
| `ModelIndex.WordIsOneToken` | crates/router/src/model_index.rs:27-33 | A non-empty name without separators is one token, its lower case. |
| `ModelIndex.SeparatorsAre` | crates/router/src/model_index.rs:27-33 | The four separators. |
| `ModelIndex.LowerEqualIff` | crates/router/src/model_index.rs:139-147 | Names are equal up to case iff they have equal length and at each position the same character or letters 32 apart in code. |
| `ModelIndex.PrefixScore` | crates/router/src/model_index.rs:35-52 | A proper or improper prefix, either way round and up to case, scores 0.8 and 0.2 of the length ratio, above the threshold. |
| `ModelIndex.TokenScoreEnds` | crates/router/src/model_index.rs:54-78 | Otherwise no shared token scores 0, and all of them shared with no longer candidate scores 1. |
| `ModelIndex.TokenWeights` | crates/router/src/model_index.rs:54-78 | The k-th requested token weighs 1/k. |
| `ModelIndex.ScoreInUnitInterval` | crates/router/src/model_index.rs:35-78 | Every score lies in [0, 1]. |
| `ModelIndex.Score` | crates/router/src/model_index.rs:35-78 | The two accumulator loops compute the weighted overlap over the longer token list, without dividing by zero. |
| `ModelIndex.BeatsIsStrictOrder` | crates/router/src/model_index.rs:157-171 | Score, then shorter, then lexicographically smaller is a strict total order on names. |
| `ModelIndex.Resolve` | crates/router/src/model_index.rs:139-174 | A name equal up to case wins; otherwise the answer is the candidate at or above the threshold that beats every other, and none iff there is no such candidate. |
| `ModelIndex.FuzzyBestIsUnique` | crates/router/src/model_index.rs:148-174 | The set of names determines the fuzzy answer, whatever order the catalog lists them in. |
| `ModelIndex.FuzzyBestIs` | crates/router/src/model_index.rs:148-174 | The fuzzy answer scores at least 0.5 and beats every other name by score, then shorter, then lexicographically smaller. |
| `ModelIndex.NoFuzzyBestIff` | crates/router/src/model_index.rs:148-174 | There is none iff every name scores below 0.5. |
| `ModelIndex.LexIs` | crates/router/src/model_index.rs:163-168 | The first difference decides, and a proper prefix comes first. |
| `Sse.AppendEvent` | crates/frontends/src/sse.rs:9-17 | The buffer holds the frame's lines, each ended by LF, and an empty line. |
| `Sse.FrameBytes` | crates/frontends/src/sse.rs:9-33 | The three frames byte for byte. |
| `Sse.RoundTrip` | crates/frontends/src/sse.rs:9-33 | Decoding the concatenation of any frames without line breaks in their parts gives exactly their messages in order; comments give none. |
| `Sse.EventRoundTripsIff` | crates/frontends/src/sse.rs:9-17 | One event comes back as sent iff its name is not empty and neither part contains CR or LF. |
| `Sse.RunConcat` | crates/frontends/src/sse.rs:9-33 | How a byte stream is cut into chunks does not change what is decoded. |
| `Keepalive.KeepaliveStream.PollNext` | crates/frontends/src/sse.rs:133-154 | For any poll schedule: inner items in order plus pings, real items before pings, and no poll of the inner stream after its end. |
| `Keepalive.PingBytes` | crates/frontends/src/sse.rs:148-150 | A ping is the comment frame of "ping", byte for byte. |
| `Keepalive.PingsAreInvisible` | crates/frontends/src/sse.rs:102-155 | If every inner item is whole frames, the bytes of any outputs decode as the inner items' bytes do. |
| `Keepalive.KeepaliveStream.ClientDecodesInner` | crates/frontends/src/sse.rs:127-155 | After any poll schedule, what the wrapper has handed out decodes as the inner stream's own bytes so far, if those come in whole frames. |
| `Keepalive.PingInsideAFrame` | crates/frontends/src/sse.rs:133-154 | For every cut of a data-only frame: a ping in the cut changes nothing iff the cut is at the frame's ends, after its data line, or cuts off the ping's own text. |

## Left out

- HTTP, TLS, async scheduling, tracing, metrics and log fields; locks that can be poisoned.
- Numeric limits: `u32`/`u64` overflow in the breaker percentage and the retry sum, `f64` rounding and the epsilon in score comparison.
- `governor` token buckets: each limiter check is an arbitrary answer, so the gates' order is modelled and what a check deducts is not. `RateLimitReservation` does nothing by design.
- Timeouts and cancellation as such: a timed-out call is one more provider outcome, a cancelled request is a drop.
- `BreakerRegistry::record` called without a hold, and holds leaked without a drop: the holds and tickets are the only callers.
- The static route table, model resolution and hot reload: the resolved chain and the filter's configuration are inputs; every upstream is assumed to be looked up in one fixed provider map.
- Requests that the sequential methods interleave in the middle of a call: `Refinement` ties whole calls to the machine, and the machine covers the interleavings.
- Dialects: the exception to the capability gate that `CONTEXT.md:150` describes has no counterpart in `admit`, and none here.
- Token estimation for the cost cap: input and output counts are arbitrary naturals.
- Provider and frontend wire formats, the built-in plugins, and the other configuration rules.
- `PluginStream.WrapStream`: stateful stream plugins are not modelled; a plugin's behaviour depends on the event alone.
- `Supervisor.PendingIsExact`: spawning that overlaps a flush, a second flush and panicking tasks are not modelled.
- `ModelIndex.Resolve`: non-ASCII names, whose lower-casing can change their length, are not modelled.
- `Sse.RoundTrip`: the byte order mark and UTF-8 decoding steps of the standard, and its `id` and `retry` fields, are not modelled.
- `Lifecycle.Validate`: the panic message and the index it names are not modelled; a panic is the answer false.
- Fields a result carries only for display, such as elapsed milliseconds and the text of the last error.

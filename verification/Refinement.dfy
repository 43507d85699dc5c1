/**
 The sequential methods run as traces of the interleaving machine: whatever `ResilientCaller.Handle`
 does to a registry is a run of one request's steps there. `AskAll`, `Decide` and `SettleAll` build
 that run from what the methods' contracts say about the log.
 */
module Refinement {
  import opened Wrappers
  import opened Sequences
  import opened CircuitBreaker
  import opened BreakerLog
  import opened Accounting
  import opened Targets
  import opened Registry
  import opened Interleaving
  import A = Admission
  import R = ResilientCaller
  import Retry
  import Walk = ChainWalk

  /** The base system with another log, and request r somewhere. */
  function At(base: System, log: Log, r: nat, q: Request): System {
    System(log, base.requests[r := q])
  }

  /** What traces lead to, as a function that is extended by every enabled step. */
  type Reach = Trace -> Option<System>

  ghost predicate FollowsSteps(world: World, reach: Reach) {
    forall t: Trace, r: nat, a: Action {:trigger reach(t + [(r, a)])} ::
      reach(t).Some? && Enabled(world, reach(t).value, r, a) ==>
      reach(t + [(r, a)]) == Some(After(world, reach(t).value, r, a))
  }

  lemma ReachedFollowsSteps(world: World, reach: Reach)
    requires forall t :: reach(t) == Reached(world, t)
    ensures FollowsSteps(world, reach)
  {
    forall t: Trace, r: nat, a: Action | reach(t).Some? && Enabled(world, reach(t).value, r, a)
      ensures reach(t + [(r, a)]) == Some(After(world, reach(t).value, r, a))
    {
      ReachedSnoc(world, t, reach(t).value, r, a);
    }
  }

  lemma ReachedSnoc(world: World, t: Trace, s: System, r: nat, a: Action)
    requires Reached(world, t) == Some(s) && Enabled(world, s, r, a)
    ensures Reached(world, t + [(r, a)]) == Some(After(world, s, r, a))
  {
    assert (t + [(r, a)])[..|t|] == t;
  }

  /** A trace extending `trace` leads to `s`. */
  ghost predicate Leads(reach: Reach, trace: Trace, longer: Trace, s: System) {
    trace <= longer && reach(longer) == Some(s)
  }

  lemma OneStep(world: World, reach: Reach, trace: Trace, sofar: Trace, s: System, r: nat, a: Action, s': System)
    returns (longer: Trace)
    requires FollowsSteps(world, reach)
    requires Leads(reach, trace, sofar, s) && Enabled(world, s, r, a) && After(world, s, r, a) == s'
    ensures Leads(reach, trace, longer, s')
  {
    longer := sofar + [(r, a)];
    assert reach(sofar + [(r, a)]) == Some(s');
  }

  // ---- asking the breakers ----

  lemma AskAll(world: World, reach: Reach, trace: Trace, base: System, r: nat, chain: seq<BackendTarget>, policy: BreakerPolicy,
               grants: seq<Option<nat>>, asked: Log, j: nat) returns (longer: Trace)
    requires FollowsSteps(world, reach) && reach(trace) == Some(base) && r !in base.requests
    requires Legal(asked) && A.Asked(base.log, asked, chain, policy, grants) && j <= |grants|
    ensures Leads(reach, trace, longer, At(base, asked[..|base.log| + j], r, Request(chain, policy, grants[..j], Admitting)))
  {
    if j == 0 {
      assert asked[..|base.log|] == base.log && grants[..0] == [];
      longer := OneStep(world, reach, trace, trace, base, r, Arrive(chain, policy),
                        At(base, base.log, r, Request(chain, policy, [], Admitting)));
    } else {
      var sofar := AskAll(world, reach, trace, base, r, chain, policy, grants, asked, j - 1);
      var m := |base.log| + j - 1;
      AnswerAt(base.log, chain, policy, grants, asked, j - 1);
      TakeSnoc(grants, j - 1);
      longer := AskNext(world, reach, trace, sofar, base, asked, m, r,
                        Request(chain, policy, grants[..j - 1], Admitting), grants[j - 1]);
    }
  }

  /** One more answer of a legal log. */
  lemma AskNext(world: World, reach: Reach, trace: Trace, sofar: Trace, base: System, asked: Log, m: nat, r: nat, q: Request,
                grant: Option<nat>)
    returns (longer: Trace)
    requires FollowsSteps(world, reach) && Legal(asked) && m < |asked|
    requires Leads(reach, trace, sofar, At(base, asked[..m], r, q))
    requires q.stage.Admitting? && |q.holds| < |q.chain|
    requires A.GrantedAs(asked[m], m, q.chain[|q.holds|], q.policy, grant)
    ensures Leads(reach, trace, longer, At(base, asked[..m + 1], r, q.(holds := q.holds + [grant])))
  {
    LegalAt(asked, m);
    TakeSnoc(asked, m);
    longer := AskStep(world, reach, trace, sofar, base, asked[..m], r, q, asked[m], grant);
  }

  lemma AnswerAt(before: Log, chain: seq<BackendTarget>, policy: BreakerPolicy, grants: seq<Option<nat>>, asked: Log, j: nat)
    requires A.Asked(before, asked, chain, policy, grants) && j < |grants|
    ensures |before| + j < |asked| && A.GrantedAs(asked[|before| + j], |before| + j, chain[j], policy, grants[j])
  {
  }

  lemma LegalAt(log: Log, n: nat)
    requires Legal(log) && n < |log|
    ensures LegalNext(log[..n], log[n])
  {
    LegalPrefix(log, n);
  }

  lemma AskStep(world: World, reach: Reach, trace: Trace, sofar: Trace, base: System, log: Log, r: nat, q: Request,
                e: Event, grant: Option<nat>)
    returns (longer: Trace)
    requires FollowsSteps(world, reach)
    requires Leads(reach, trace, sofar, At(base, log, r, q))
    requires q.stage.Admitting? && |q.holds| < |q.chain| && LegalNext(log, e)
    requires A.GrantedAs(e, |log|, q.chain[|q.holds|], q.policy, grant)
    ensures Leads(reach, trace, longer, At(base, log + [e], r, q.(holds := q.holds + [grant])))
  {
    longer := OneStep(world, reach, trace, sofar, At(base, log, r, q), r, AskBreaker(e),
                      At(base, log + [e], r, q.(holds := q.holds + [grant])));
  }

  // ---- the request's fate ----

  ghost predicate AnyGranted(grants: seq<Option<nat>>) {
    exists j :: 0 <= j < |grants| && grants[j].Some?
  }

  /** A winner is where the request's script makes a stream come from, and only an admitted request has one. */
  ghost predicate WinnerOk(x: Script, q: Request, winner: Option<nat>) {
    winner.Some? ==> StreamsFrom(x, q, winner.value) && AnyGranted(q.holds)
  }

  /** From the last answer to the point where the ticket starts to be settled. */
  lemma Decide(world: World, reach: Reach, trace: Trace, sofar: Trace, base: System, log: Log, r: nat, q: Request, winner: Option<nat>)
    returns (longer: Trace)
    requires q.stage == Admitting && |q.holds| == |q.chain|
    requires FollowsSteps(world, reach)
    requires Leads(reach, trace, sofar, At(base, log, r, q))
    requires WinnerOk(world(r), q, winner)
    ensures Leads(reach, trace, longer, At(base, log, r, q.(stage := Settling(winner, 0))))
  {
    if AnyGranted(q.holds) {
      longer := MoveTo(world, reach, trace, sofar, base, log, r, q, Issue, Walking);
      if winner.Some? {
        longer := StreamFrom(world, reach, trace, longer, base, log, r, q.(stage := Walking), winner.value);
      } else {
        longer := MoveTo(world, reach, trace, longer, base, log, r, q.(stage := Walking), Abandon, Settling(None, 0));
      }
    } else {
      longer := MoveTo(world, reach, trace, sofar, base, log, r, q, Issue, Settling(None, 0));
    }
  }

  lemma StreamFrom(world: World, reach: Reach, trace: Trace, sofar: Trace, base: System, log: Log, r: nat, q: Request, i: nat)
    returns (longer: Trace)
    requires FollowsSteps(world, reach)
    requires Leads(reach, trace, sofar, At(base, log, r, q)) && q.stage.Walking? && StreamsFrom(world(r), q, i)
    ensures Leads(reach, trace, longer, At(base, log, r, q.(stage := Settling(Some(i), 0))))
  {
    longer := MoveTo(world, reach, trace, sofar, base, log, r, q, StartStream(i), Streaming(i));
    longer := MoveTo(world, reach, trace, longer, base, log, r, q.(stage := Streaming(i)), FirstItem(true), Settling(Some(i), 0));
  }

  /** A step that only changes the request's stage. */
  lemma MoveTo(world: World, reach: Reach, trace: Trace, sofar: Trace, base: System, log: Log, r: nat, q: Request,
               a: Action, stage: Stage)
    returns (longer: Trace)
    requires FollowsSteps(world, reach)
    requires Leads(reach, trace, sofar, At(base, log, r, q)) && Enabled(world, At(base, log, r, q), r, a)
    requires After(world, At(base, log, r, q), r, a) == With(At(base, log, r, q), r, q.(stage := stage))
    ensures Leads(reach, trace, longer, At(base, log, r, q.(stage := stage)))
  {
    assert With(At(base, log, r, q), r, q.(stage := stage)) == At(base, log, r, q.(stage := stage));
    longer := OneStep(world, reach, trace, sofar, At(base, log, r, q), r, a, At(base, log, r, q.(stage := stage)));
  }

  // ---- settling ----

  /** Where the record owed for position j stands among the records owed. */
  lemma {:induction false} OwedAt(grants: seq<Option<nat>>, winner: Option<nat>, j: nat)
    requires j < |grants|
    ensures Expected(grants[..j], winner) <= Expected(grants, winner)
    ensures grants[j].Some? ==>
            && |Expected(grants[..j], winner)| < |Expected(grants, winner)|
            && Expected(grants, winner)[|Expected(grants[..j], winner)|] == (grants[j].value, winner == Some(j))
  {
    var i := |grants| - 1;
    if j < i {
      OwedAt(grants[..i], winner, j);
      assert grants[..i][..j] == grants[..j];
    }
  }

  /** The log of a ticket of which the first j positions have been settled. */
  function SettledTo(asked: Log, after: Log, grants: seq<Option<nat>>, winner: Option<nat>, j: nat): Log
    requires j <= |grants|
  {
    var n := |asked| + |Expected(grants[..j], winner)|;
    if n <= |after| then after[..n] else after
  }

  /** The event that settles position j, if it has a hold. */
  lemma NextRecord(before: Log, asked: Log, after: Log, chain: seq<BackendTarget>, policy: BreakerPolicy,
                   grants: seq<Option<nat>>, winner: Option<nat>, j: nat)
    requires Legal(after) && A.Asked(before, asked, chain, policy, grants) && A.Settled(asked, after, grants, winner)
    requires j < |grants| && grants[j].Some?
    ensures var log := SettledTo(asked, after, grants, winner, j);
            && |log| < |after| && log == after[..|log|]
            && SettledTo(asked, after, grants, winner, j + 1) == log + [after[|log|]]
            && var e := after[|log|];
            && e.Recorded? && e.hold == grants[j].value && e.ok == (winner == Some(j))
            && e.key == KeyOf(chain[j]) && e.policy == policy && LastAt(log, e.key) <= e.at
  {
    var m := |asked| + |Expected(grants[..j], winner)|;
    PaidAt(asked, after, grants, winner, j);
    RecordsMatchHolds(after, m);
    RecordsInOrder(after, m);
    GrantOf(before, asked, after, chain, policy, grants, j);
    TakeSnoc(after, m);
  }

  /** The event that pays for position j, and the lengths around it. */
  lemma PaidAt(asked: Log, after: Log, grants: seq<Option<nat>>, winner: Option<nat>, j: nat)
    requires A.Settled(asked, after, grants, winner) && j < |grants| && grants[j].Some?
    ensures var m := |asked| + |Expected(grants[..j], winner)|;
            && m < |after| && Pays(after[m], (grants[j].value, winner == Some(j)))
            && |asked| + |Expected(grants[..j + 1], winner)| == m + 1
  {
    var owed, n := Expected(grants, winner), |Expected(grants[..j], winner)|;
    OwedAt(grants, winner, j);
    NewRecords(asked, after, owed);
    assert Pays(after[|asked| + n], owed[n]);
    ExpectedSnoc(grants, j, winner);
  }

  lemma GrantOf(before: Log, asked: Log, after: Log, chain: seq<BackendTarget>, policy: BreakerPolicy,
                grants: seq<Option<nat>>, j: nat)
    requires A.Asked(before, asked, chain, policy, grants) && asked <= after && j < |grants| && grants[j].Some?
    ensures grants[j].value == |before| + j < |asked|
    ensures after[grants[j].value].Granted?
    ensures after[grants[j].value].key == KeyOf(chain[j]) && after[grants[j].value].policy == policy
  {
    assert A.GrantedAs(asked[|before| + j], |before| + j, chain[j], policy, grants[j]);
  }

  lemma SettleAll(world: World, reach: Reach, trace: Trace, sofar: Trace, base: System, before: Log, asked: Log, after: Log, r: nat,
                  chain: seq<BackendTarget>, policy: BreakerPolicy, grants: seq<Option<nat>>, winner: Option<nat>, j: nat)
    returns (longer: Trace)
    requires Legal(after) && A.Asked(before, asked, chain, policy, grants) && A.Settled(asked, after, grants, winner)
    requires FollowsSteps(world, reach)
    requires Leads(reach, trace, sofar, At(base, asked, r, Request(chain, policy, grants, Settling(winner, 0))))
    requires j <= |grants|
    ensures Leads(reach, trace, longer, At(base, SettledTo(asked, after, grants, winner, j), r,
                                           Request(chain, policy, grants, Settling(winner, j))))
  {
    if j == 0 {
      assert grants[..0] == [] && after[..|asked|] == asked;
      longer := sofar;
    } else {
      longer := SettleAll(world, reach, trace, sofar, base, before, asked, after, r, chain, policy, grants, winner, j - 1);
      longer := SettlePosition(world, reach, trace, longer, base, before, asked, after, r, chain, policy, grants, winner, j - 1);
    }
  }

  lemma SettlePosition(world: World, reach: Reach, trace: Trace, sofar: Trace, base: System, before: Log, asked: Log, after: Log, r: nat,
                       chain: seq<BackendTarget>, policy: BreakerPolicy, grants: seq<Option<nat>>, winner: Option<nat>, j: nat)
    returns (longer: Trace)
    requires Legal(after) && A.Asked(before, asked, chain, policy, grants) && A.Settled(asked, after, grants, winner)
    requires j < |grants|
    requires FollowsSteps(world, reach)
    requires Leads(reach, trace, sofar, At(base, SettledTo(asked, after, grants, winner, j), r,
                                           Request(chain, policy, grants, Settling(winner, j))))
    ensures Leads(reach, trace, longer, At(base, SettledTo(asked, after, grants, winner, j + 1), r,
                                           Request(chain, policy, grants, Settling(winner, j + 1))))
  {
    var log := SettledTo(asked, after, grants, winner, j);
    var q := Request(chain, policy, grants, Settling(winner, j));
    if grants[j].Some? {
      NextRecord(before, asked, after, chain, policy, grants, winner, j);
      longer := SettleStep(world, reach, trace, sofar, base, log, r, q, after[|log|]);
    } else {
      NoRecord(asked, after, grants, winner, j);
      longer := PassStep(world, reach, trace, sofar, base, log, r, q);
    }
  }

  lemma NoRecord(asked: Log, after: Log, grants: seq<Option<nat>>, winner: Option<nat>, j: nat)
    requires j < |grants| && grants[j].None?
    ensures SettledTo(asked, after, grants, winner, j + 1) == SettledTo(asked, after, grants, winner, j)
  {
    ExpectedSnoc(grants, j, winner);
    assert Expected(grants[..j], winner) + [] == Expected(grants[..j], winner);
  }

  lemma SettleStep(world: World, reach: Reach, trace: Trace, sofar: Trace, base: System, log: Log, r: nat, q: Request, e: Event)
    returns (longer: Trace)
    requires FollowsSteps(world, reach)
    requires Leads(reach, trace, sofar, At(base, log, r, q))
    requires q.stage.Settling? && q.stage.next < |q.holds| && q.stage.next < |q.chain| && e.Recorded?
    requires q.holds[q.stage.next] == Some(e.hold) && e.ok == (q.stage.winner == Some(q.stage.next))
    requires e.key == KeyOf(q.chain[q.stage.next]) && e.policy == q.policy && LastAt(log, e.key) <= e.at
    ensures Leads(reach, trace, longer,
                  At(base, log + [e], r, q.(stage := Settling(q.stage.winner, q.stage.next + 1))))
  {
    longer := OneStep(world, reach, trace, sofar, At(base, log, r, q), r, SettleOne(e),
                      At(base, log + [e], r, q.(stage := Settling(q.stage.winner, q.stage.next + 1))));
  }

  lemma PassStep(world: World, reach: Reach, trace: Trace, sofar: Trace, base: System, log: Log, r: nat, q: Request)
    returns (longer: Trace)
    requires FollowsSteps(world, reach)
    requires Leads(reach, trace, sofar, At(base, log, r, q))
    requires q.stage.Settling? && q.stage.next < |q.holds| && q.holds[q.stage.next].None?
    ensures Leads(reach, trace, longer, At(base, log, r, q.(stage := Settling(q.stage.winner, q.stage.next + 1))))
  {
    longer := MoveTo(world, reach, trace, sofar, base, log, r, q, PassOver, Settling(q.stage.winner, q.stage.next + 1));
  }

  /** A request that asked for its holds and settled them has run as a trace of the machine, to its end. */
  lemma RunIsTrace(world: World, reach: Reach, trace: Trace, base: System, r: nat, asked: Log, after: Log,
                   chain: seq<BackendTarget>, policy: BreakerPolicy, grants: seq<Option<nat>>, winner: Option<nat>)
    returns (longer: Trace)
    requires FollowsSteps(world, reach) && reach(trace) == Some(base) && r !in base.requests
    requires Legal(after) && A.Asked(base.log, asked, chain, policy, grants) && |grants| == |chain|
    requires A.Settled(asked, after, grants, winner)
    requires WinnerOk(world(r), Request(chain, policy, grants, Admitting), winner)
    ensures Leads(reach, trace, longer, At(base, after, r, Request(chain, policy, grants, Settling(winner, |grants|))))
  {
    longer := AskedInFull(world, reach, trace, base, r, asked, after, chain, policy, grants);
    longer := Decide(world, reach, trace, longer, base, asked, r, Request(chain, policy, grants, Admitting), winner);
    longer := SettleAll(world, reach, trace, longer, base, base.log, asked, after, r, chain, policy, grants, winner, |grants|);
    SettledInFull(asked, after, grants, winner);
  }

  lemma AskedInFull(world: World, reach: Reach, trace: Trace, base: System, r: nat, asked: Log, after: Log,
                    chain: seq<BackendTarget>, policy: BreakerPolicy, grants: seq<Option<nat>>)
    returns (longer: Trace)
    requires FollowsSteps(world, reach) && reach(trace) == Some(base) && r !in base.requests
    requires Legal(after) && asked <= after && A.Asked(base.log, asked, chain, policy, grants)
    ensures Leads(reach, trace, longer, At(base, asked, r, Request(chain, policy, grants, Admitting)))
  {
    LegalPrefix(after, |asked|);
    assert after[..|asked|] == asked && asked[..|asked|] == asked && grants[..|grants|] == grants;
    longer := AskAll(world, reach, trace, base, r, chain, policy, grants, asked, |grants|);
  }

  lemma SettledInFull(asked: Log, after: Log, grants: seq<Option<nat>>, winner: Option<nat>)
    requires A.Settled(asked, after, grants, winner)
    ensures SettledTo(asked, after, grants, winner, |grants|) == after
  {
    assert grants[..|grants|] == grants && after[..|after|] == after;
  }

  // ---- the method ----

  /** Request r has come and gone, and no other request has moved. */
  ghost predicate Completed(base: System, s: System, r: nat, chain: seq<BackendTarget>, winner: Option<nat>) {
    && r in s.requests && s.requests == base.requests[r := s.requests[r]]
    && Done(s.requests[r]) && s.requests[r].chain == chain && s.requests[r].stage.winner == winner
  }

  /** The run of one `Handle` call, continuing any trace that has led to the registry's log. */
  method HandleAsTrace(registry: BreakerRegistry, g: A.Gates, resolved: A.ResolvedRoute, tryRaw: bool, answer: R.RawAnswer,
                       calls: nat -> (nat -> Retry.CallResult), draws: nat -> (nat -> Retry.Fraction),
                       events: seq<R.EventPoll>, bytes: seq<R.BytesPoll>,
                       ghost world: World, ghost trace: Trace, ghost r: nat)
    returns (answered: Result<R.Dispatched, A.AdmissionError>, ghost longer: Trace)
    requires registry.Valid()
    requires Reached(world, trace).Some? && Reached(world, trace).value.log == registry.log
    requires r !in Reached(world, trace).value.requests
    requires world(r) == Script(g.providers.Keys, resolved.retry, calls, draws, tryRaw && answer == R.RawStream)
    modifies registry.Repr()
    ensures registry.Valid() && trace <= longer
    ensures Reached(world, longer).Some? && Reached(world, longer).value.log == registry.log
    ensures A.GateError(g, resolved.chain).Some? ==> longer == trace
    ensures A.GateError(g, resolved.chain).None? ==>
            Completed(Reached(world, trace).value, Reached(world, longer).value, r, A.Filtered(g, resolved.chain),
                      if answered.Ok? then R.Winner(answered.value, events, bytes) else None)
  {
    ghost var base := Reached(world, trace).value;
    ghost var reach: Reach := t => Reached(world, t);
    ReachedFollowsSteps(world, reach);
    ghost var asked, grants;
    answered, asked, grants := R.Handle(registry, g, resolved, tryRaw, answer, calls, draws, events, bytes);
    ghost var chain := A.Filtered(g, resolved.chain);
    if A.GateError(g, resolved.chain).Some? {
      longer := trace;
    } else if answered.Err? {
      grants := A.NoGrants(|chain|);
      NothingOwed(registry.log, grants);
      longer := RunIsTrace(world, reach, trace, base, r, registry.log, registry.log, chain, resolved.breaker, grants, None);
    } else {
      ghost var winner := R.Winner(answered.value, events, bytes);
      WinnerStreams(world(r), Request(chain, resolved.breaker, grants, Admitting), answered.value, winner, events, bytes);
      longer := RunIsTrace(world, reach, trace, base, r, asked, registry.log, chain, resolved.breaker, grants, winner);
    }
  }

  lemma NothingOwed(log: Log, grants: seq<Option<nat>>)
    requires forall i :: 0 <= i < |grants| ==> grants[i].None?
    ensures A.Settled(log, log, grants, None)
  {
    ExpectedEmptyIff(grants, None);
    assert Records(log) + [] == Records(log);
  }

  lemma WinnerStreams(x: Script, q: Request, d: R.Dispatched, winner: Option<nat>,
                      events: seq<R.EventPoll>, bytes: seq<R.BytesPoll>)
    requires winner == R.Winner(d, events, bytes) && q.chain != [] && |q.holds| == |q.chain|
    requires !d.RawProviderMissing? && (d.RawResponse? <==> x.rawAnswers)
    requires d.Canonical? ==> Walk.Outcomes(WalkOf(x, q), d.result)
    ensures winner.Some? ==> StreamsFrom(x, q, winner.value)
  {
  }
}

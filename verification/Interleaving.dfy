/**
 Many requests sharing one registry, one lock-protected section at a time. Between any two
 steps of a request (asking for a hold, settling one hold of a ticket) every other request may
 run. `Refinement` shows that the sequential methods take these steps; here the accounting is
 shown to survive arbitrary interleaving.

 `world(r)` scripts what request r will meet: its provider calls and jitter draws, and whether
 the raw path answers. It is arbitrary.
 */
module Interleaving {
  import opened Wrappers
  import opened CircuitBreaker
  import opened BreakerLog
  import opened Accounting
  import opened Targets
  import Walk = ChainWalk
  import Retry

  datatype Script = Script(
    providers: set<string>,
    retry: Retry.RetryPolicy,
    calls: nat -> (nat -> Retry.CallResult),
    draws: nat -> (nat -> Retry.Fraction),
    rawAnswers: bool)

  type World = nat -> Script

  /** Where a request is. In `Settling`, holds before `next` have been recorded and the rest are about to be. */
  datatype Stage =
    | Admitting
    | Walking
    | Streaming(index: nat)
    | Settling(winner: Option<nat>, next: nat)

  datatype Request = Request(chain: seq<BackendTarget>, policy: BreakerPolicy, holds: seq<Option<nat>>, stage: Stage)

  datatype System = System(log: Log, requests: map<nat, Request>)

  const START := System([], map[])

  datatype Action =
    | Arrive(chain: seq<BackendTarget>, policy: BreakerPolicy)
    | AskBreaker(event: Event)
    | Issue                      // admitted, or refused because every breaker said Skip
    | StartStream(index: nat)    // the walk streams from there, or the raw path answered (index 0)
    | Abandon                    // an error exit of the walk, or the response dropped before any item
    | FirstItem(ok: bool)
    | SettleOne(event: Event)
    | PassOver                   // the next element has no hold

  function With(s: System, r: nat, q: Request): System {
    s.(requests := s.requests[r := q])
  }

  function Append(s: System, e: Event): System {
    s.(log := s.log + [e])
  }

  /** The element a stream for this request comes from: the head on the raw path, else the one the walk ends at. */
  ghost predicate StreamsFrom(x: Script, q: Request, i: nat) {
    i < |q.chain| && |q.holds| == |q.chain| &&
    if x.rawAnswers then i == 0
    else exists s :: Walk.Outcomes(WalkOf(x, q), Walk.Streaming(i, s))
  }

  ghost function WalkOf(x: Script, q: Request): Walk.Walk {
    Walk.WalkFrom(q.chain, q.holds, x.providers, x.retry, x.calls, x.draws)
  }

  lemma OneStreamSource(x: Script, q: Request, i: nat, j: nat)
    requires StreamsFrom(x, q, i) && StreamsFrom(x, q, j)
    ensures i == j
  {
    if !x.rawAnswers {
      var s :| Walk.Outcomes(WalkOf(x, q), Walk.Streaming(i, s));
      var t :| Walk.Outcomes(WalkOf(x, q), Walk.Streaming(j, t));
      Walk.WalkIsDetermined(WalkOf(x, q), Walk.Streaming(i, s), Walk.Streaming(j, t));
    }
  }

  ghost predicate Enabled(world: World, s: System, r: nat, a: Action) {
    match a
    case Arrive(_, _) => r !in s.requests
    case AskBreaker(e) =>
      && r in s.requests
      && var q := s.requests[r];
      && q.stage.Admitting? && |q.holds| < |q.chain|
      && e.Granted? && e.key == KeyOf(q.chain[|q.holds|]) && e.policy == q.policy && LegalNext(s.log, e)
    case Issue => r in s.requests && s.requests[r].stage.Admitting? && |s.requests[r].holds| == |s.requests[r].chain|
    case StartStream(i) => r in s.requests && s.requests[r].stage.Walking? && StreamsFrom(world(r), s.requests[r], i)
    case Abandon => r in s.requests && (s.requests[r].stage.Walking? || s.requests[r].stage.Streaming?)
    case FirstItem(_) => r in s.requests && s.requests[r].stage.Streaming?
    case SettleOne(e) =>
      && r in s.requests
      && var q := s.requests[r];
      && q.stage.Settling? && q.stage.next < |q.holds| && q.holds[q.stage.next].Some? && q.stage.next < |q.chain|
      && e.Recorded? && e.key == KeyOf(q.chain[q.stage.next]) && e.policy == q.policy
      && e.hold == q.holds[q.stage.next].value && e.ok == (q.stage.winner == Some(q.stage.next))
      && LastAt(s.log, e.key) <= e.at
    case PassOver =>
      && r in s.requests
      && var q := s.requests[r];
      && q.stage.Settling? && q.stage.next < |q.holds| && q.holds[q.stage.next].None?
  }

  ghost function After(world: World, s: System, r: nat, a: Action): System
    requires Enabled(world, s, r, a)
  {
    match a
    case Arrive(chain, policy) => With(s, r, Request(chain, policy, [], Admitting))
    case AskBreaker(e) =>
      var q := s.requests[r];
      With(Append(s, e), r, q.(holds := q.holds + [if e.decision == Skip then None else Some(|s.log|)]))
    case Issue =>
      var q := s.requests[r];
      With(s, r, q.(stage := if exists j :: 0 <= j < |q.holds| && q.holds[j].Some? then Walking else Settling(None, 0)))
    case StartStream(i) => With(s, r, s.requests[r].(stage := Streaming(i)))
    case Abandon => With(s, r, s.requests[r].(stage := Settling(None, 0)))
    case FirstItem(ok) =>
      var i := s.requests[r].stage.index;
      With(s, r, s.requests[r].(stage := Settling(if ok then Some(i) else None, 0)))
    case SettleOne(e) =>
      var q := s.requests[r];
      With(Append(s, e), r, q.(stage := q.stage.(next := q.stage.next + 1)))
    case PassOver =>
      var q := s.requests[r];
      With(s, r, q.(stage := q.stage.(next := q.stage.next + 1)))
  }

  // ---- the invariant ----

  predicate Owns(s: System, r: nat, j: nat, h: nat) {
    r in s.requests && j < |s.requests[r].holds| && s.requests[r].holds[j] == Some(h)
  }

  /** What has been recorded so far for position j. */
  function SettledSoFar(stage: Stage, j: nat): seq<bool> {
    if stage.Settling? && j < stage.next then [stage.winner == Some(j)] else []
  }

  predicate HoldOk(log: Log, q: Request, j: nat)
    requires j < |q.holds| <= |q.chain|
  {
    q.holds[j].Some? ==>
      var h := q.holds[j].value;
      && IsHold(log, h) && log[h].key == KeyOf(q.chain[j]) && log[h].policy == q.policy
      && RecordsFor(log, h) == SettledSoFar(q.stage, j)
  }

  predicate RequestOk(log: Log, q: Request) {
    && |q.holds| <= |q.chain|
    && (!q.stage.Admitting? ==> |q.holds| == |q.chain|)
    && (q.stage.Settling? ==> q.stage.next <= |q.holds|)
    && forall j :: 0 <= j < |q.holds| ==> HoldOk(log, q, j)
  }

  ghost predicate Inv(s: System) {
    && Legal(s.log)
    && (forall r :: r in s.requests ==> RequestOk(s.log, s.requests[r]))
    && (forall r, j, r', j', h :: Owns(s, r, j, h) && Owns(s, r', j', h) ==> r == r' && j == j')
    && (forall h :: IsHold(s.log, h) ==> exists r, j :: Owns(s, r, j, h))
  }

  lemma StageOnlyKeepsInv(s: System, r: nat, q: Request)
    requires Inv(s) && (r in s.requests ==> s.requests[r].holds == q.holds) && (r !in s.requests ==> q.holds == [])
    requires RequestOk(s.log, q)
    ensures Inv(With(s, r, q))
  {
    var s' := With(s, r, q);
    assert forall r', j, h :: Owns(s', r', j, h) <==> Owns(s, r', j, h);
    forall h | IsHold(s.log, h)
      ensures exists r', j :: Owns(s', r', j, h)
    {
      var r', j :| Owns(s, r', j, h);
      assert Owns(s', r', j, h);
    }
  }

  lemma AskKeepsInv(world: World, s: System, r: nat, e: Event)
    requires Inv(s) && Enabled(world, s, r, AskBreaker(e))
    ensures Inv(After(world, s, r, AskBreaker(e)))
  {
    var s' := After(world, s, r, AskBreaker(e));
    var n := |s.log|;
    Snoc(s.log, e);
    RecordsSnoc(s.log, e);
    NothingYetFor(s.log, n);
    forall r' | r' in s'.requests
      ensures RequestOk(s'.log, s'.requests[r'])
    {
      forall j | 0 <= j < |s'.requests[r'].holds|
        ensures HoldOk(s'.log, s'.requests[r'], j)
      {
        if j < |s.requests[r'].holds| {
          assert HoldOk(s.log, s.requests[r'], j);
        }
      }
    }
    OwnersAfterAsk(world, s, r, e);
  }

  lemma OwnersAfterAsk(world: World, s: System, r: nat, e: Event)
    requires Inv(s) && Enabled(world, s, r, AskBreaker(e))
    ensures var s' := After(world, s, r, AskBreaker(e));
            && (forall r1, j1, r2, j2, h :: Owns(s', r1, j1, h) && Owns(s', r2, j2, h) ==> r1 == r2 && j1 == j2)
            && (forall h :: IsHold(s'.log, h) ==> exists r1, j :: Owns(s', r1, j, h))
  {
    var s' := After(world, s, r, AskBreaker(e));
    var n, last := |s.log|, |s.requests[r].holds|;
    forall r': nat, j: nat, h: nat | Owns(s', r', j, h)
      ensures Owns(s, r', j, h) || (r' == r && j == last && h == n && e.decision != Skip)
      ensures Owns(s, r', j, h) ==> h < n
    {
      if Owns(s, r', j, h) {
        assert HoldOk(s.log, s.requests[r'], j);
      }
    }
    forall h | IsHold(s'.log, h)
      ensures exists r', j :: Owns(s', r', j, h)
    {
      if h == n {
        assert Owns(s', r, last, h);
      } else {
        assert IsHold(s.log, h);
        var r', j :| Owns(s, r', j, h);
        assert Owns(s', r', j, h);
      }
    }
  }

  lemma NothingYetFor(log: Log, n: nat)
    requires Legal(log) && |log| <= n
    ensures RecordsFor(log, n) == []
  {
    OutstandingIffNoRecord(log, n);
    forall i | 0 <= i < |log|
      ensures !Settles(log[i], n)
    {
      if Settles(log[i], n) {
        RecordsMatchHolds(log, i);
      }
    }
  }

  /** The hold being settled, which no other position owns, now has its one record. */
  lemma SettledHoldOk(log: Log, q: Request, e: Event)
    requires q.stage.Settling? && q.stage.next < |q.holds| <= |q.chain| && HoldOk(log, q, q.stage.next)
    requires e.Recorded? && q.holds[q.stage.next] == Some(e.hold) && e.ok == (q.stage.winner == Some(q.stage.next))
    ensures HoldOk(log + [e], q.(stage := q.stage.(next := q.stage.next + 1)), q.stage.next)
  {
    RecordsSnoc(log, e);
  }

  /** Moving on past position `next` does not change what is expected of the other positions. */
  lemma OtherPositionOk(log: Log, q: Request, j: nat)
    requires q.stage.Settling? && j < |q.holds| <= |q.chain| && j != q.stage.next && HoldOk(log, q, j)
    ensures HoldOk(log, q.(stage := q.stage.(next := q.stage.next + 1)), j)
  {
  }

  lemma SettlingRequestOk(world: World, s: System, r: nat, e: Event)
    requires Inv(s) && Enabled(world, s, r, SettleOne(e))
    ensures RequestOk(s.log + [e], After(world, s, r, SettleOne(e)).requests[r])
  {
    var q := s.requests[r];
    var q' := q.(stage := q.stage.(next := q.stage.next + 1));
    assert RequestOk(s.log, q);
    forall j | 0 <= j < |q.holds|
      ensures HoldOk(s.log + [e], q', j)
    {
      assert HoldOk(s.log, q, j);
      if j == q.stage.next {
        SettledHoldOk(s.log, q, e);
      } else {
        if q.holds[j] == Some(e.hold) {
          assert Owns(s, r, j, e.hold) && Owns(s, r, q.stage.next, e.hold);
          assert false;
        }
        OtherHoldKept(s.log, e, q, j);
        OtherPositionOk(s.log + [e], q, j);
      }
    }
  }

  lemma OtherRequestOk(world: World, s: System, r: nat, e: Event, r': nat)
    requires Inv(s) && Enabled(world, s, r, SettleOne(e)) && r' in s.requests && r' != r
    ensures RequestOk(s.log + [e], s.requests[r'])
  {
    var q := s.requests[r'];
    assert RequestOk(s.log, q);
    forall j | 0 <= j < |q.holds|
      ensures HoldOk(s.log + [e], q, j)
    {
      assert HoldOk(s.log, q, j);
      if q.holds[j] == Some(e.hold) {
        assert Owns(s, r', j, e.hold) && Owns(s, r, s.requests[r].stage.next, e.hold);
        assert false;
      }
      OtherHoldKept(s.log, e, q, j);
    }
  }

  lemma SettleKeepsHolds(world: World, s: System, r: nat, e: Event)
    requires Inv(s) && Enabled(world, s, r, SettleOne(e))
    ensures var s' := After(world, s, r, SettleOne(e));
            forall r' :: r' in s'.requests ==> RequestOk(s'.log, s'.requests[r'])
  {
    forall r' | r' in s.requests
      ensures RequestOk(s.log + [e], After(world, s, r, SettleOne(e)).requests[r'])
    {
      if r' == r {
        SettlingRequestOk(world, s, r, e);
      } else {
        OtherRequestOk(world, s, r, e, r');
      }
    }
  }

  lemma OtherHoldKept(log: Log, e: Event, q: Request, j: nat)
    requires j < |q.holds| <= |q.chain| && HoldOk(log, q, j)
    requires e.Recorded? && q.holds[j] != Some(e.hold)
    ensures HoldOk(log + [e], q, j)
  {
    RecordsSnoc(log, e);
  }

  lemma SettleKeepsInv(world: World, s: System, r: nat, e: Event)
    requires Inv(s) && Enabled(world, s, r, SettleOne(e))
    ensures Inv(After(world, s, r, SettleOne(e)))
  {
    var s' := After(world, s, r, SettleOne(e));
    var q := s.requests[r];
    assert HoldOk(s.log, q, q.stage.next);
    OutstandingIffNoRecord(s.log, e.hold);
    SettleKeepsHolds(world, s, r, e);
    Snoc(s.log, e);
    RecordsSnoc(s.log, e);
    assert forall r', j, h :: Owns(s', r', j, h) <==> Owns(s, r', j, h);
    forall h | IsHold(s'.log, h)
      ensures exists r', j :: Owns(s', r', j, h)
    {
      assert IsHold(s.log, h);
      var r', j :| Owns(s, r', j, h);
      assert Owns(s', r', j, h);
    }
  }

  /** Every other action moves one request to its next stage and appends nothing. */
  lemma StageMoveKeepsInv(world: World, s: System, r: nat, a: Action)
    requires Inv(s) && Enabled(world, s, r, a) && !a.Arrive? && !a.AskBreaker? && !a.SettleOne?
    ensures Inv(After(world, s, r, a))
  {
    var q, q' := s.requests[r], After(world, s, r, a).requests[r];
    assert RequestOk(s.log, q);
    forall j | 0 <= j < |q'.holds|
      ensures HoldOk(s.log, q', j)
    {
      assert HoldOk(s.log, q, j);
    }
    StageOnlyKeepsInv(s, r, q');
  }

  lemma StepKeepsInv(world: World, s: System, r: nat, a: Action)
    requires Inv(s) && Enabled(world, s, r, a)
    ensures Inv(After(world, s, r, a))
  {
    match a
    case AskBreaker(e) => AskKeepsInv(world, s, r, e);
    case SettleOne(e) => SettleKeepsInv(world, s, r, e);
    case Arrive(chain, policy) => StageOnlyKeepsInv(s, r, Request(chain, policy, [], Admitting));
    case _ => StageMoveKeepsInv(world, s, r, a);
  }

  // ---- runs ----

  type Trace = seq<(nat, Action)>

  /** The system after a trace of (request, action) steps, if every step was enabled when taken. */
  ghost function Reached(world: World, trace: Trace): Option<System> {
    if trace == [] then Some(START)
    else
      var (r, a) := trace[|trace| - 1];
      match Reached(world, trace[..|trace| - 1])
      case Some(s) => if Enabled(world, s, r, a) then Some(After(world, s, r, a)) else None
      case None => None
  }

  lemma {:induction false} ReachedInv(world: World, trace: Trace)
    requires Reached(world, trace).Some?
    ensures Inv(Reached(world, trace).value)
  {
    if trace != [] {
      var (r, a) := trace[|trace| - 1];
      ReachedInv(world, trace[..|trace| - 1]);
      StepKeepsInv(world, Reached(world, trace[..|trace| - 1]).value, r, a);
    }
  }

  predicate Done(q: Request) {
    q.stage.Settling? && q.stage.next == |q.holds|
  }

  /**
   In every reachable state, whatever the interleaving: a request that is done has exactly one record
   for each element that had a hold, a success exactly for its winner; a request still being admitted,
   walking or streaming has none.
   */
  lemma OneRecordPerHold(world: World, trace: Trace, r: nat, j: nat, h: nat)
    requires Reached(world, trace).Some? && Owns(Reached(world, trace).value, r, j, h)
    ensures var s := Reached(world, trace).value;
            var q := s.requests[r];
            && (Done(q) ==> RecordsFor(s.log, h) == [q.stage.winner == Some(j)])
            && (!q.stage.Settling? ==> RecordsFor(s.log, h) == [] && Outstanding(s.log, h))
  {
    var s := Reached(world, trace).value;
    ReachedInv(world, trace);
    assert HoldOk(s.log, s.requests[r], j);
    OutstandingIffNoRecord(s.log, h);
  }

  /** Every record in the log settles a hold that some request owns: skipped elements and refusals contribute none. */
  lemma NoStrayRecords(world: World, trace: Trace, i: nat)
    requires Reached(world, trace).Some? && i < |Reached(world, trace).value.log| && Reached(world, trace).value.log[i].Recorded?
    ensures exists r, j :: Owns(Reached(world, trace).value, r, j, Reached(world, trace).value.log[i].hold)
  {
    ReachedInv(world, trace);
    RecordsMatchHolds(Reached(world, trace).value.log, i);
  }

  /** Once every request is done no breaker is wedged: an enabled request is refused only during a cooldown. */
  lemma QuiescentNotWedged(world: World, trace: Trace, k: Key, now: nat, p: BreakerPolicy)
    requires Reached(world, trace).Some?
    requires forall r :: r in Reached(world, trace).value.requests ==> Done(Reached(world, trace).value.requests[r])
    ensures var b := BreakerOf(Reached(world, trace).value.log, k);
            && !b.probeInFlight
            && (Decide(b, now, p) == Skip <==>
                p.enabled && b.openSince.Some? && now < b.openSince.value + p.openCooldown && 0 < p.openCooldown)
  {
    var s := Reached(world, trace).value;
    ReachedInv(world, trace);
    forall h: nat
      ensures !Outstanding(s.log, h)
    {
      if Outstanding(s.log, h) {
        var r, j :| Owns(s, r, j, h);
        OneRecordPerHold(world, trace, r, j, h);
        OutstandingIffNoRecord(s.log, h);
      }
    }
    NotWedged(s.log, k, now, p);
    if BreakerOf(s.log, k).probeInFlight {
      FlagMeansOutstandingProbe(s.log, k);
    }
  }

  /** What a request's stage says about its script and the steps it has taken. */
  ghost predicate StageHistory(world: World, s: System, trace: Trace, r: nat) {
    if r !in s.requests then
      forall i :: 0 <= i < |trace| ==> trace[i].0 != r
    else
      var q := s.requests[r];
      match q.stage
      case Streaming(i) => StreamsFrom(world(r), q, i) && (r, FirstItem(true)) !in trace
      case Settling(Some(i), _) => StreamsFrom(world(r), q, i) && (r, FirstItem(true)) in trace
      case _ => (r, FirstItem(true)) !in trace
  }

  lemma {:induction false} StageFollowsTrace(world: World, trace: Trace, r: nat)
    requires Reached(world, trace).Some?
    ensures StageHistory(world, Reached(world, trace).value, trace, r)
  {
    if trace != [] {
      var init, step := trace[..|trace| - 1], trace[|trace| - 1];
      StageFollowsTrace(world, init, r);
      StageStep(world, Reached(world, init).value, init, step, r);
      assert trace == init + [step];
    }
  }

  lemma StageStep(world: World, s: System, trace: Trace, step: (nat, Action), r: nat)
    requires StageHistory(world, s, trace, r) && Enabled(world, s, step.0, step.1)
    ensures StageHistory(world, After(world, s, step.0, step.1), trace + [step], r)
  {
    var longer := trace + [step];
    assert forall x :: x in longer <==> x in trace || x == step;
    var s' := After(world, s, step.0, step.1);
    if step.0 == r && step.1.Arrive? {
      assert forall x :: x in trace ==> x.0 != r;
    } else if r in s.requests && (s'.requests[r].stage.Streaming? || s'.requests[r].stage.Settling?) {
      assert s'.requests[r].chain == s.requests[r].chain && s'.requests[r].holds == s.requests[r].holds;
      assert forall i :: StreamsFrom(world(r), s'.requests[r], i) <==> StreamsFrom(world(r), s.requests[r], i);
    }
  }

  /**
   A settling request's winner is element i exactly if i is where its script makes the stream come
   from (the head on the raw path, the first held element to succeed otherwise) and a good first
   item was seen.
   */
  lemma WinnerIff(world: World, trace: Trace, r: nat, i: nat)
    requires Reached(world, trace).Some? && r in Reached(world, trace).value.requests
    requires Reached(world, trace).value.requests[r].stage.Settling?
    ensures var q := Reached(world, trace).value.requests[r];
            q.stage.winner == Some(i) <==> StreamsFrom(world(r), q, i) && (r, FirstItem(true)) in trace
  {
    StageFollowsTrace(world, trace, r);
    var q := Reached(world, trace).value.requests[r];
    if q.stage.winner.Some? && StreamsFrom(world(r), q, i) {
      OneStreamSource(world(r), q, i, q.stage.winner.value);
    }
  }
}

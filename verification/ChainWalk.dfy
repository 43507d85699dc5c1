/**
 The fallback walk over an admitted chain. `calls(i)` and `draws(i)` script the provider
 calls and jitter draws of chain element `i`; they are arbitrary.
 */
module ChainWalk {
  import opened Wrappers
  import opened Fallback
  import opened Retry
  import opened Targets
  import Admission

  datatype TriedUpstream = TriedUpstream(provider: string, model: string, attempts: nat, lastErrorTag: string)

  datatype ResilienceError =
    | NoUpstreamSucceeded(tried: seq<TriedUpstream>, lastError: ProviderError)
    | TerminalError(error: ProviderError, tried: seq<TriedUpstream>)
    | AllBreakersOpen(skipped: seq<string>)

  datatype WalkResult =
    | Streaming(index: nat, stream: StreamHandle)
    | Failed(error: ResilienceError)

  /** Everything a walk depends on. `held[i]` says that element i has a breaker hold. */
  datatype Walk = Walk(
    chain: seq<BackendTarget>,
    held: seq<bool>,
    providers: set<string>,
    retry: RetryPolicy,
    calls: nat -> (nat -> CallResult),
    draws: nat -> (nat -> Fraction))

  /** What a visit to one chain element amounts to. */
  datatype Visit =
    | Skipped
    | Missing
    | Succeeded(stream: StreamHandle)
    | FellThrough(error: ProviderError, attempts: nat)
    | Terminal(error: ProviderError, attempts: nat)

  ghost predicate WellFormed(w: Walk) {
    |w.held| == |w.chain|
  }

  ghost function VisitOf(w: Walk, i: nat): Visit
    requires WellFormed(w) && i < |w.chain|
  {
    if !w.held[i] then Skipped
    else if w.chain[i].provider !in w.providers then Missing
    else
      var o := Outcome(w.retry, w.calls(i), w.draws(i));
      match o.result
      case Ok(s) => Succeeded(s)
      case Err(e) =>
        if Eligible(e, w.retry.retryOn) then FellThrough(e, o.attempts) else Terminal(e, o.attempts)
  }

  predicate Stops(v: Visit) {
    v.Missing? || v.Succeeded? || v.Terminal?
  }

  function TriedEntry(t: BackendTarget, e: ProviderError, attempts: nat): TriedUpstream {
    TriedUpstream(t.provider, t.model, attempts, ErrorTag(e))
  }

  /** The attempted-and-failed elements among the first n, in chain order. */
  ghost function Tried(w: Walk, n: nat): seq<TriedUpstream>
    requires WellFormed(w) && n <= |w.chain|
  {
    if n == 0 then []
    else
      var v := VisitOf(w, n - 1);
      Tried(w, n - 1) +
      (if v.FellThrough? || v.Terminal? then [TriedEntry(w.chain[n - 1], v.error, v.attempts)] else [])
  }

  ghost function SkippedNames(w: Walk, n: nat): seq<string>
    requires WellFormed(w) && n <= |w.chain|
  {
    if n == 0 then []
    else SkippedNames(w, n - 1) + (if VisitOf(w, n - 1).Skipped? then [w.chain[n - 1].provider] else [])
  }

  ghost function LastError(w: Walk, n: nat): Option<ProviderError>
    requires WellFormed(w) && n <= |w.chain|
  {
    if n == 0 then None
    else if VisitOf(w, n - 1).FellThrough? then Some(VisitOf(w, n - 1).error)
    else LastError(w, n - 1)
  }

  ghost predicate NoStopBefore(w: Walk, n: nat)
    requires WellFormed(w) && n <= |w.chain|
  {
    forall j :: 0 <= j < n ==> !Stops(VisitOf(w, j))
  }

  /** The walk's result: that of the first element that stops it, or of the exhausted chain. */
  ghost predicate Outcomes(w: Walk, r: WalkResult)
    requires WellFormed(w)
  {
    || (exists i :: 0 <= i < |w.chain| && NoStopBefore(w, i) && Stops(VisitOf(w, i)) && r == StopResult(w, i))
    || (NoStopBefore(w, |w.chain|) && r == Exhausted(w))
  }

  ghost function StopResult(w: Walk, i: nat): WalkResult
    requires WellFormed(w) && i < |w.chain| && Stops(VisitOf(w, i))
  {
    match VisitOf(w, i)
    case Missing => Failed(TerminalError(UnknownProvider(w.chain[i].provider), Tried(w, i)))
    case Succeeded(s) => Streaming(i, s)
    case Terminal(e, _) => Failed(TerminalError(e, Tried(w, i + 1)))
  }

  ghost function Exhausted(w: Walk): WalkResult
    requires WellFormed(w) && NoStopBefore(w, |w.chain|)
  {
    var n := |w.chain|;
    if LastError(w, n).Some? then Failed(NoUpstreamSucceeded(Tried(w, n), LastError(w, n).value))
    else if n > 0 then Failed(AllBreakersOpen(SkippedNames(w, n)))
    else Failed(TerminalError(Network("empty chain"), []))
  }

  /** Something was attempted exactly if the last error is set: the `expect` on it cannot fire. */
  lemma {:induction false} LastErrorIsSet(w: Walk, n: nat)
    requires WellFormed(w) && n <= |w.chain| && NoStopBefore(w, n)
    ensures Tried(w, n) != [] <==> LastError(w, n).Some?
    ensures |Tried(w, n)| + |SkippedNames(w, n)| == n
  {
    if n > 0 {
      LastErrorIsSet(w, n - 1);
      assert !Stops(VisitOf(w, n - 1));
    }
  }

  lemma {:induction false} PrefixesOfLists(w: Walk, m: nat, n: nat)
    requires WellFormed(w) && m <= n <= |w.chain|
    ensures Tried(w, m) <= Tried(w, n) && SkippedNames(w, m) <= SkippedNames(w, n)
  {
    if m < n {
      PrefixesOfLists(w, m, n - 1);
    }
  }

  lemma TriedAt(w: Walk, n: nat, i: nat)
    requires WellFormed(w) && i < n <= |w.chain|
    requires VisitOf(w, i).FellThrough? || VisitOf(w, i).Terminal?
    ensures |Tried(w, i)| < |Tried(w, n)|
    ensures Tried(w, n)[|Tried(w, i)|] == TriedEntry(w.chain[i], VisitOf(w, i).error, VisitOf(w, i).attempts)
  {
    PrefixesOfLists(w, i + 1, n);
    assert |Tried(w, i + 1)| == |Tried(w, i)| + 1;
  }

  lemma SkippedAt(w: Walk, n: nat, i: nat)
    requires WellFormed(w) && i < n <= |w.chain| && VisitOf(w, i).Skipped?
    ensures |SkippedNames(w, i)| < |SkippedNames(w, n)|
    ensures SkippedNames(w, n)[|SkippedNames(w, i)|] == w.chain[i].provider
  {
    PrefixesOfLists(w, i + 1, n);
    assert |SkippedNames(w, i + 1)| == |SkippedNames(w, i)| + 1;
  }

  /**
   The lists partition the visited prefix: with nothing stopping the walk before its last visited
   element, element i is the next entry of the skipped list if it has no hold and the next entry
   of the tried list if its calls failed.
   */
  lemma EachVisitOnce(w: Walk, n: nat, i: nat)
    requires WellFormed(w) && i < n <= |w.chain| && NoStopBefore(w, n - 1)
    ensures |Tried(w, i)| + |SkippedNames(w, i)| == i
    ensures i < n - 1 ==> VisitOf(w, i).Skipped? || VisitOf(w, i).FellThrough?
    ensures VisitOf(w, i).Skipped? ==>
            && |SkippedNames(w, i)| < |SkippedNames(w, n)|
            && SkippedNames(w, n)[|SkippedNames(w, i)|] == w.chain[i].provider
    ensures VisitOf(w, i).FellThrough? || VisitOf(w, i).Terminal? ==>
            && |Tried(w, i)| < |Tried(w, n)|
            && Tried(w, n)[|Tried(w, i)|] ==
               TriedUpstream(w.chain[i].provider, w.chain[i].model, VisitOf(w, i).attempts, ErrorTag(VisitOf(w, i).error))
  {
    LastErrorIsSet(w, i);
    assert i < n - 1 ==> !Stops(VisitOf(w, i));
    match VisitOf(w, i)
    case Skipped => SkippedAt(w, n, i);
    case FellThrough(_, _) => TriedAt(w, n, i);
    case Terminal(_, _) => TriedAt(w, n, i);
    case _ =>
  }

  method WalkChain(ticket: Admission.AdmissionTicket, providers: set<string>,
                   calls: nat -> (nat -> CallResult), draws: nat -> (nat -> Fraction),
                   ghost w: Walk)
    returns (r: WalkResult)
    requires |ticket.holds| == |ticket.chain|
    requires w == WalkOf(ticket, providers, calls, draws)
    ensures Outcomes(w, r)
  {
    var chain := ticket.chain;
    var tried: seq<TriedUpstream> := [];
    var lastError: Option<ProviderError> := None;
    var breakersSkipped: seq<string> := [];
    for i := 0 to |chain|
      invariant NoStopBefore(w, i)
      invariant tried == Tried(w, i) && lastError == LastError(w, i) && breakersSkipped == SkippedNames(w, i)
    {
      var target := chain[i];
      if !ticket.BreakerAllowed(i) {
        breakersSkipped := breakersSkipped + [target.provider];
        continue;
      }
      if target.provider !in providers {
        return Failed(TerminalError(UnknownProvider(target.provider), tried));
      }
      var outcome := RetryWithPolicy(ticket.route.retry, calls(i), draws(i));
      match outcome.result {
        case Ok(stream) =>
          return Streaming(i, stream);
        case Err(e) =>
          tried := tried + [TriedEntry(target, e, outcome.attempts)];
          if !Eligible(e, ticket.route.retry.retryOn) {
            return Failed(TerminalError(e, tried));
          }
          lastError := Some(e);
      }
    }
    LastErrorIsSet(w, |chain|);
    if tried != [] {
      return Failed(NoUpstreamSucceeded(tried, lastError.value));
    } else if breakersSkipped != [] {
      return Failed(AllBreakersOpen(breakersSkipped));
    } else {
      return Failed(TerminalError(Network("empty chain"), []));
    }
  }

  ghost function WalkOf(ticket: Admission.AdmissionTicket, providers: set<string>,
                        calls: nat -> (nat -> CallResult), draws: nat -> (nat -> Fraction)): Walk
    reads ticket
  {
    Walk(ticket.chain, seq(|ticket.holds|, i requires 0 <= i < |ticket.holds| reads ticket => ticket.holds[i] != null),
         providers, ticket.route.retry, calls, draws)
  }

  /** The same walk in terms of what the breakers granted. */
  ghost function WalkFrom(chain: seq<BackendTarget>, grants: seq<Option<nat>>, providers: set<string>, retry: RetryPolicy,
                          calls: nat -> (nat -> CallResult), draws: nat -> (nat -> Fraction)): Walk {
    Walk(chain, seq(|grants|, i requires 0 <= i < |grants| => grants[i].Some?), providers, retry, calls, draws)
  }

  lemma WalkOfIsWalkFrom(ticket: Admission.AdmissionTicket, providers: set<string>,
                         calls: nat -> (nat -> CallResult), draws: nat -> (nat -> Fraction))
    ensures WalkOf(ticket, providers, calls, draws) ==
            WalkFrom(ticket.chain, Admission.Grants(ticket.holds), providers, ticket.route.retry, calls, draws)
  {
  }

  // ---- what the result means ----

  /** The walk streams from element i exactly if i is held and succeeds and every earlier held element failed eligibly. */
  lemma StreamsFromFirstSuccess(w: Walk, r: WalkResult, i: nat, s: StreamHandle)
    requires WellFormed(w) && Outcomes(w, r) && i < |w.chain|
    ensures r == Streaming(i, s) <==>
            && VisitOf(w, i) == Succeeded(s)
            && forall j :: 0 <= j < i ==> VisitOf(w, j).Skipped? || VisitOf(w, j).FellThrough?
  {
    if VisitOf(w, i) == Succeeded(s) && forall j :: 0 <= j < i ==> VisitOf(w, j).Skipped? || VisitOf(w, j).FellThrough? {
      assert Stops(VisitOf(w, i)) && NoStopBefore(w, i);
    }
  }

  /** A visit in terms of the provider calls made for the element, of which it makes `attempts`. */
  ghost predicate Attempted(w: Walk, i: nat, attempts: nat) {
    && 1 <= attempts && (attempts <= w.retry.maxAttempts || attempts == 1)
    && forall k :: 1 <= k < attempts ==> w.calls(i)(k).Err? && Eligible(w.calls(i)(k).error, w.retry.retryOn)
  }

  lemma VisitInCalls(w: Walk, i: nat)
    requires WellFormed(w) && i < |w.chain|
    ensures VisitOf(w, i).Skipped? <==> !w.held[i]
    ensures VisitOf(w, i).Missing? <==> w.held[i] && w.chain[i].provider !in w.providers
    ensures VisitOf(w, i).Succeeded? ==>
            exists a: nat :: Attempted(w, i, a) && w.calls(i)(a) == Ok(VisitOf(w, i).stream)
    ensures VisitOf(w, i).FellThrough? ==>
            && Attempted(w, i, VisitOf(w, i).attempts) && w.calls(i)(VisitOf(w, i).attempts) == Err(VisitOf(w, i).error)
            && Eligible(VisitOf(w, i).error, w.retry.retryOn)
    ensures VisitOf(w, i).Terminal? ==>
            && Attempted(w, i, VisitOf(w, i).attempts) && w.calls(i)(VisitOf(w, i).attempts) == Err(VisitOf(w, i).error)
            && !Eligible(VisitOf(w, i).error, w.retry.retryOn)
  {
    var o := Outcome(w.retry, w.calls(i), w.draws(i));
    OutcomeIs(w.retry, w.calls(i), w.draws(i));
    forall k | 1 <= k < o.attempts
      ensures w.calls(i)(k).Err? && Eligible(w.calls(i)(k).error, w.retry.retryOn) && k < w.retry.maxAttempts
    {
      assert GoesOn(w.retry, w.calls(i), w.draws(i), k);
    }
    assert Attempted(w, i, o.attempts) by {
      if o.attempts > 1 {
        assert GoesOn(w.retry, w.calls(i), w.draws(i), o.attempts - 1);
      }
    }
  }

  /** The rules determine the result. */
  lemma WalkIsDetermined(w: Walk, r: WalkResult, r': WalkResult)
    requires WellFormed(w) && Outcomes(w, r) && Outcomes(w, r')
    ensures r == r'
  {
  }

  /** The breakers-open exit is taken exactly when the chain has elements and none of them is held; it names them all. */
  lemma BreakersOpenExit(w: Walk, r: WalkResult)
    requires WellFormed(w) && Outcomes(w, r)
    ensures r.Failed? && r.error.AllBreakersOpen? <==> w.chain != [] && forall i :: 0 <= i < |w.chain| ==> !w.held[i]
    ensures r.Failed? && r.error.AllBreakersOpen? ==>
            |r.error.skipped| == |w.chain| && forall i :: 0 <= i < |w.chain| ==> r.error.skipped[i] == w.chain[i].provider
  {
    if NoStopBefore(w, |w.chain|) {
      NoErrorMeansNoneHeld(w, |w.chain|);
      if LastError(w, |w.chain|).None? {
        NoneHeldSkipsAll(w, |w.chain|);
      }
    }
  }

  lemma {:induction false} NoneHeldSkipsAll(w: Walk, n: nat)
    requires WellFormed(w) && n <= |w.chain| && forall i :: 0 <= i < n ==> !w.held[i]
    ensures |SkippedNames(w, n)| == n && forall i :: 0 <= i < n ==> SkippedNames(w, n)[i] == w.chain[i].provider
  {
    if n > 0 {
      NoneHeldSkipsAll(w, n - 1);
    }
  }

  /** Element i failed eligibly with e, and no element after it, up to n, failed eligibly. */
  ghost predicate LatestFailure(w: Walk, n: nat, i: nat, e: ProviderError)
    requires WellFormed(w) && n <= |w.chain|
  {
    && i < n && VisitOf(w, i).FellThrough? && VisitOf(w, i).error == e
    && forall j :: i < j < n ==> !VisitOf(w, j).FellThrough?
  }

  lemma {:induction false} LastErrorIsLatest(w: Walk, n: nat) returns (i: nat)
    requires WellFormed(w) && n <= |w.chain| && LastError(w, n).Some?
    ensures LatestFailure(w, n, i, LastError(w, n).value)
  {
    if VisitOf(w, n - 1).FellThrough? {
      i := n - 1;
    } else {
      i := LastErrorIsLatest(w, n - 1);
    }
  }

  /** An exhausted chain reports the error of the last element attempted: everything after that element was skipped. */
  lemma ReportsTheLatestError(w: Walk, r: WalkResult)
    requires WellFormed(w) && Outcomes(w, r) && r.Failed? && r.error.NoUpstreamSucceeded?
    ensures exists i :: && 0 <= i < |w.chain| && VisitOf(w, i).FellThrough? && VisitOf(w, i).error == r.error.lastError
                        && forall j :: i < j < |w.chain| ==> VisitOf(w, j).Skipped?
  {
    var i := LastErrorIsLatest(w, |w.chain|);
    assert forall j :: 0 <= j < |w.chain| ==> !Stops(VisitOf(w, j));
  }

  /** A terminal error of an admitted chain is that of the element that stopped the walk, which is the last entry tried. */
  lemma ReportsTheTerminalError(w: Walk, r: WalkResult)
    requires Admitted(w) && Outcomes(w, r) && r.Failed? && r.error.TerminalError?
    ensures exists i :: && 0 <= i < |w.chain| && NoStopBefore(w, i)
                        && VisitOf(w, i).Terminal? && VisitOf(w, i).error == r.error.error
                        && r.error.tried == Tried(w, i) +
                           [TriedUpstream(w.chain[i].provider, w.chain[i].model, VisitOf(w, i).attempts, ErrorTag(r.error.error))]
  {
    if NoStopBefore(w, |w.chain|) {
      BreakersOpenExit(w, r);
      NoErrorMeansNoneHeld(w, |w.chain|);
      assert false;
    } else {
      var i :| 0 <= i < |w.chain| && NoStopBefore(w, i) && Stops(VisitOf(w, i)) && r == StopResult(w, i);
      assert w.chain[i] in w.chain;
    }
  }

  lemma {:induction false} NoErrorMeansNoneHeld(w: Walk, n: nat)
    requires WellFormed(w) && n <= |w.chain| && NoStopBefore(w, n)
    ensures LastError(w, n).None? <==> forall i :: 0 <= i < n ==> !w.held[i]
  {
    if n > 0 {
      NoErrorMeansNoneHeld(w, n - 1);
      assert !Stops(VisitOf(w, n - 1));
    }
  }

  /** The last error is one that a provider call returned, and an eligible one. */
  lemma {:induction false} LastErrorFromCall(w: Walk, n: nat)
    requires WellFormed(w) && n <= |w.chain|
    ensures LastError(w, n).Some? ==>
            Eligible(LastError(w, n).value, w.retry.retryOn) &&
            exists i, k :: 0 <= i < n && 1 <= k && w.calls(i)(k) == Err(LastError(w, n).value)
  {
    if n > 0 {
      LastErrorFromCall(w, n - 1);
      if VisitOf(w, n - 1).FellThrough? {
        var o := Outcome(w.retry, w.calls(n - 1), w.draws(n - 1));
        OutcomeIs(w.retry, w.calls(n - 1), w.draws(n - 1));
        assert w.calls(n - 1)(o.attempts) == Err(LastError(w, n).value);
      }
    }
  }

  /** What `Admission.Admit` guarantees of the ticket it issues. */
  ghost predicate Admitted(w: Walk) {
    && WellFormed(w)
    && (exists i :: 0 <= i < |w.chain| && w.held[i])
    && (forall t :: t in w.chain ==> t.provider in w.providers)
  }

  /**
   An admitted walk ends in a stream, in `NoUpstreamSucceeded` or in a terminal error, and its
   error is one that some provider call returned: the breakers-open, missing-provider and
   empty-chain exits are unreachable.
   */
  lemma AdmittedExits(w: Walk, r: WalkResult)
    requires Admitted(w) && Outcomes(w, r)
    ensures r.Failed? ==> !r.error.AllBreakersOpen?
    ensures r.Failed? ==>
            var e := if r.error.TerminalError? then r.error.error else r.error.lastError;
            && (r.error.TerminalError? <==> !Eligible(e, w.retry.retryOn))
            && (exists i, k :: 0 <= i < |w.chain| && 1 <= k && w.calls(i)(k) == Err(e))
            && r.error.tried != []
  {
    BreakersOpenExit(w, r);
    if NoStopBefore(w, |w.chain|) {
      LastErrorIsSet(w, |w.chain|);
      LastErrorFromCall(w, |w.chain|);
    } else {
      var i :| 0 <= i < |w.chain| && NoStopBefore(w, i) && Stops(VisitOf(w, i)) && r == StopResult(w, i);
      assert w.chain[i] in w.chain;
      if VisitOf(w, i).Terminal? {
        var o := Outcome(w.retry, w.calls(i), w.draws(i));
        OutcomeIs(w.retry, w.calls(i), w.draws(i));
        assert w.calls(i)(o.attempts) == Err(VisitOf(w, i).error);
      }
    }
  }
}

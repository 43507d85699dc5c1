/**
 What happens to a ticket after admission: it rides into the chain walk, from there into the
 response stream, and is settled by the stream's first item or by being dropped.
 */
module ResilientCaller {
  import opened Wrappers
  import opened StreamEvents
  import opened BreakerLog
  import opened Registry
  import opened Accounting
  import opened Admission
  import opened Retry
  import opened ChainWalk

  datatype Poll<T> = Pending | Ready(item: Option<T>)

  type EventPoll = Poll<Result<StreamEvent, string>>

  type BytesPoll = Poll<Result<string, string>>

  /** The first item decides; an in-band error event counts as a failure, the end of the stream decides nothing. */
  function EventVerdict(poll: EventPoll): Option<bool> {
    match poll
    case Ready(Some(Ok(e))) => Some(!e.Error?)
    case Ready(Some(Err(_))) => Some(false)
    case _ => None
  }

  function BytesVerdict(poll: BytesPoll): Option<bool> {
    match poll
    case Ready(Some(item)) => Some(item.Ok?)
    case _ => None
  }

  /** The verdict of the first poll to give one. */
  function FirstVerdict(verdicts: seq<Option<bool>>): Option<bool> {
    if verdicts == [] then None
    else if FirstVerdict(verdicts[..|verdicts| - 1]).Some? then FirstVerdict(verdicts[..|verdicts| - 1])
    else verdicts[|verdicts| - 1]
  }

  function WinnerOf(chainIndex: nat, verdict: Option<bool>): Option<nat> {
    if verdict == Some(true) then Some(chainIndex) else None
  }

  /** A response stream that settles its ticket on the first item. */
  class TicketStream {
    var ticket: AdmissionTicket?
    const chainIndex: nat

    constructor (ticket: AdmissionTicket, chainIndex: nat)
      ensures this.ticket == ticket && this.chainIndex == chainIndex
    {
      this.ticket, this.chainIndex := ticket, chainIndex;
    }

    /** The take-and-consume step both stream wrappers share. */
    method Observe(verdict: Option<bool>)
      requires ticket != null ==> ticket.Valid()
      modifies this, ticket, if ticket == null then {} else ticket.registry.Repr(), if ticket == null then [] else ticket.holds
      ensures old(ticket) == null ==> ticket == null
      ensures old(ticket) != null && verdict.None? ==>
              && ticket == old(ticket) && ticket.Valid()
              && ticket.holds == old(ticket.holds) && ticket.registry.log == old(ticket.registry.log)
      ensures old(ticket) != null && verdict.Some? ==>
              && ticket == null
              && old(ticket).registry.Valid()
              && Settled(old(ticket.registry.log), old(ticket).registry.log, old(Grants(ticket.holds)),
                         WinnerOf(chainIndex, verdict))
      ensures old(ticket) != null ==> fresh(old(ticket).registry.Repr() - old(ticket.registry.Repr()))
    {
      if verdict.Some? {
        var taken := ticket;
        ticket := null;
        if taken != null {
          taken.Consume(chainIndex, verdict.value);
        }
      }
    }

    method PollEvent(poll: EventPoll) returns (out: EventPoll)
      requires ticket != null ==> ticket.Valid()
      modifies this, ticket, if ticket == null then {} else ticket.registry.Repr(), if ticket == null then [] else ticket.holds
      ensures out == poll
      ensures old(ticket) == null ==> ticket == null
      ensures old(ticket) != null ==> Rides(this, old(ticket), old(ticket.registry.log), old(Grants(ticket.holds)), EventVerdict(poll))
      ensures old(ticket) != null ==> fresh(old(ticket).registry.Repr() - old(ticket.registry.Repr()))
      ensures old(ticket) != null && EventVerdict(poll).None? ==> old(ticket).holds == old(ticket.holds)
      ensures old(ticket) != null && poll.Ready? && poll.item.Some? ==>
              && ticket == null && old(ticket).registry.Valid()
              && Settled(old(ticket.registry.log), old(ticket).registry.log, old(Grants(ticket.holds)),
                         if poll.item.value.Ok? && !poll.item.value.value.Error? then Some(chainIndex) else None)
      ensures old(ticket) != null && (poll.Pending? || poll.item.None?) ==>
              ticket == old(ticket) && ticket.Valid() && ticket.registry.log == old(ticket.registry.log)
    {
      Observe(EventVerdict(poll));
      return poll;
    }

    method PollBytes(poll: BytesPoll) returns (out: BytesPoll)
      requires ticket != null ==> ticket.Valid()
      modifies this, ticket, if ticket == null then {} else ticket.registry.Repr(), if ticket == null then [] else ticket.holds
      ensures out == poll
      ensures old(ticket) == null ==> ticket == null
      ensures old(ticket) != null ==> Rides(this, old(ticket), old(ticket.registry.log), old(Grants(ticket.holds)), BytesVerdict(poll))
      ensures old(ticket) != null ==> fresh(old(ticket).registry.Repr() - old(ticket.registry.Repr()))
      ensures old(ticket) != null && BytesVerdict(poll).None? ==> old(ticket).holds == old(ticket.holds)
      ensures old(ticket) != null && poll.Ready? && poll.item.Some? ==>
              && ticket == null && old(ticket).registry.Valid()
              && Settled(old(ticket.registry.log), old(ticket).registry.log, old(Grants(ticket.holds)),
                         if poll.item.value.Ok? then Some(chainIndex) else None)
      ensures old(ticket) != null && (poll.Pending? || poll.item.None?) ==>
              ticket == old(ticket) && ticket.Valid() && ticket.registry.log == old(ticket.registry.log)
    {
      Observe(BytesVerdict(poll));
      return poll;
    }

    /** Dropping the response drops a ticket it still holds. */
    method Drop()
      requires ticket != null ==> ticket.Valid()
      modifies this, ticket, if ticket == null then {} else ticket.registry.Repr(), if ticket == null then [] else ticket.holds
      ensures old(ticket) != null ==>
              && old(ticket).registry.Valid()
              && Settled(old(ticket.registry.log), old(ticket).registry.log, old(Grants(ticket.holds)), None)
    {
      if ticket != null {
        ticket.Drop();
      }
    }
  }

  /** Until an item decides, the stream carries the untouched ticket; afterwards the ticket is gone and settled. */
  ghost predicate Rides(s: TicketStream, t: AdmissionTicket, before: Log, grants: seq<Option<nat>>, verdict: Option<bool>)
    reads s, t, t.registry, t.registry.clock, t.registry.breakers.Values, t.holds
  {
    if verdict.None? then
      s.ticket == t && t.Valid() && t.registry.log == before && Grants(t.holds) == grants
    else
      && s.ticket == null && t.registry.Valid()
      && Settled(before, t.registry.log, grants, WinnerOf(s.chainIndex, verdict))
  }

  lemma FirstVerdictStep(verdicts: seq<Option<bool>>, i: nat)
    requires i < |verdicts|
    ensures FirstVerdict(verdicts[..i + 1]) ==
            if FirstVerdict(verdicts[..i]).Some? then FirstVerdict(verdicts[..i]) else verdicts[i]
  {
    assert verdicts[..i + 1][..i] == verdicts[..i];
  }

  function EventVerdicts(polls: seq<EventPoll>): seq<Option<bool>> {
    seq(|polls|, i requires 0 <= i < |polls| => EventVerdict(polls[i]))
  }

  function BytesVerdicts(polls: seq<BytesPoll>): seq<Option<bool>> {
    seq(|polls|, i requires 0 <= i < |polls| => BytesVerdict(polls[i]))
  }

  /** A client polls a canonical response any number of times, with any answers. */
  method PollAllEvents(s: TicketStream, polls: seq<EventPoll>)
    requires s.ticket != null && s.ticket.Valid()
    modifies s, s.ticket, s.ticket.registry.Repr(), s.ticket.holds
    ensures var t := old(s.ticket);
            && Rides(s, t, old(t.registry.log), old(Grants(t.holds)), FirstVerdict(EventVerdicts(polls)))
            && (FirstVerdict(EventVerdicts(polls)).None? ==> t.holds == old(t.holds))
            && fresh(t.registry.Repr() - old(t.registry.Repr()))
  {
    var t := s.ticket;
    ghost var before, grants, verdicts := t.registry.log, Grants(t.holds), EventVerdicts(polls);
    assert verdicts[..0] == [];
    for i := 0 to |polls|
      invariant Rides(s, t, before, grants, FirstVerdict(verdicts[..i]))
      invariant FirstVerdict(verdicts[..i]).None? ==> t.holds == old(t.holds)
      invariant fresh(t.registry.Repr() - old(t.registry.Repr()))
    {
      FirstVerdictStep(verdicts, i);
      var item := s.PollEvent(polls[i]);
    }
    assert verdicts[..|polls|] == verdicts;
  }

  /** ... and then drops the response. */
  method ServeEvents(s: TicketStream, polls: seq<EventPoll>)
    requires s.ticket != null && s.ticket.Valid()
    modifies s, s.ticket, s.ticket.registry.Repr(), s.ticket.holds
    ensures var t := old(s.ticket);
            t.registry.Valid() && Settled(old(t.registry.log), t.registry.log, old(Grants(t.holds)),
                                          WinnerOf(s.chainIndex, FirstVerdict(EventVerdicts(polls))))
  {
    PollAllEvents(s, polls);
    s.Drop();
  }

  /** The same for a raw byte response. */
  method PollAllBytes(s: TicketStream, polls: seq<BytesPoll>)
    requires s.ticket != null && s.ticket.Valid()
    modifies s, s.ticket, s.ticket.registry.Repr(), s.ticket.holds
    ensures var t := old(s.ticket);
            && Rides(s, t, old(t.registry.log), old(Grants(t.holds)), FirstVerdict(BytesVerdicts(polls)))
            && (FirstVerdict(BytesVerdicts(polls)).None? ==> t.holds == old(t.holds))
            && fresh(t.registry.Repr() - old(t.registry.Repr()))
  {
    var t := s.ticket;
    ghost var before, grants, verdicts := t.registry.log, Grants(t.holds), BytesVerdicts(polls);
    assert verdicts[..0] == [];
    for i := 0 to |polls|
      invariant Rides(s, t, before, grants, FirstVerdict(verdicts[..i]))
      invariant FirstVerdict(verdicts[..i]).None? ==> t.holds == old(t.holds)
      invariant fresh(t.registry.Repr() - old(t.registry.Repr()))
    {
      FirstVerdictStep(verdicts, i);
      var item := s.PollBytes(polls[i]);
    }
    assert verdicts[..|polls|] == verdicts;
  }

  /** ... and then drops the response. */
  method ServeBytes(s: TicketStream, polls: seq<BytesPoll>)
    requires s.ticket != null && s.ticket.Valid()
    modifies s, s.ticket, s.ticket.registry.Repr(), s.ticket.holds
    ensures var t := old(s.ticket);
            t.registry.Valid() && Settled(old(t.registry.log), t.registry.log, old(Grants(t.holds)),
                                          WinnerOf(s.chainIndex, FirstVerdict(BytesVerdicts(polls))))
  {
    PollAllBytes(s, polls);
    s.Drop();
  }

  /** The chain walk owns the ticket: a stream takes it along, every error exit drops it. */
  method Complete(ticket: AdmissionTicket, providers: set<string>,
                  calls: nat -> (nat -> CallResult), draws: nat -> (nat -> Fraction))
    returns (r: WalkResult, stream: TicketStream?)
    requires ticket.Valid() && !ticket.consumed
    modifies ticket, ticket.registry.Repr(), ticket.holds
    ensures Outcomes(old(WalkOf(ticket, providers, calls, draws)), r)
    ensures ticket.registry.Valid() && fresh(ticket.registry.Repr() - old(ticket.registry.Repr()))
    ensures r.Streaming? ==> stream != null && fresh(stream) && stream.chainIndex == r.index && stream.ticket == ticket
                             && ticket.Valid() && ticket.holds == old(ticket.holds)
                             && ticket.registry.log == old(ticket.registry.log)
    ensures r.Failed? ==> stream == null &&
                          Settled(old(ticket.registry.log), ticket.registry.log, old(Grants(ticket.holds)), None)
  {
    ghost var w := WalkOf(ticket, providers, calls, draws);
    r := WalkChain(ticket, providers, calls, draws, w);
    stream := null;
    match r {
      case Streaming(i, _) =>
        stream := new TicketStream(ticket, i);
      case Failed(_) =>
        ticket.Drop();
    }
  }

  /** What `proxy_raw` answers. */
  datatype RawAnswer = RawStream | Declined | RawError

  datatype Dispatched =
    | RawResponse
    | Canonical(result: WalkResult)
    | RawProviderMissing(provider: string)

  /**
   The raw fast path runs on the chain head with the same ticket, whatever the head's breaker
   said; a declined or failed attempt hands the ticket on to the walk.
   */
  method Dispatch(ticket: AdmissionTicket, tryRaw: bool, answer: RawAnswer, providers: set<string>,
                  calls: nat -> (nat -> CallResult), draws: nat -> (nat -> Fraction))
    returns (r: Dispatched, stream: TicketStream?)
    requires ticket.Valid() && !ticket.consumed && ticket.chain != []
    modifies ticket, ticket.registry.Repr(), ticket.holds
    ensures ticket.registry.Valid() && fresh(ticket.registry.Repr() - old(ticket.registry.Repr()))
    ensures r.RawProviderMissing? <==> tryRaw && ticket.chain[0].provider !in providers
    ensures r.RawResponse? <==> tryRaw && ticket.chain[0].provider in providers && answer == RawStream
    ensures r.Canonical? ==> Outcomes(old(WalkOf(ticket, providers, calls, draws)), r.result)
    ensures stream != null <==> r.RawResponse? || (r.Canonical? && r.result.Streaming?)
    ensures stream != null ==> fresh(stream) && stream.ticket == ticket && ticket.Valid()
                               && stream.chainIndex == (if r.RawResponse? then 0 else r.result.index)
                               && ticket.holds == old(ticket.holds) && ticket.registry.log == old(ticket.registry.log)
    ensures stream == null ==>
            Settled(old(ticket.registry.log), ticket.registry.log, old(Grants(ticket.holds)), None)
  {
    if tryRaw {
      if ticket.chain[0].provider !in providers {
        ticket.Drop();
        return RawProviderMissing(ticket.chain[0].provider), null;
      }
      if answer == RawStream {
        stream := new TicketStream(ticket, 0);
        return RawResponse, stream;
      }
    }
    var result;
    result, stream := Complete(ticket, providers, calls, draws);
    r := Canonical(result);
  }

  /** The element, if any, whose record is a success: the one whose stream was returned and whose first item was good. */
  function Winner(r: Dispatched, events: seq<EventPoll>, bytes: seq<BytesPoll>): Option<nat> {
    match r
    case RawResponse => WinnerOf(0, FirstVerdict(BytesVerdicts(bytes)))
    case Canonical(Streaming(i, _)) => WinnerOf(i, FirstVerdict(EventVerdicts(events)))
    case _ => None
  }

  /** Some item is a good event, and the polls before it handed out none. */
  predicate BeginsWithGoodEvent(polls: seq<EventPoll>) {
    exists k :: 0 <= k < |polls| && GoodEvent(polls[k]) && forall j :: 0 <= j < k ==> HandsOutNothing(polls[j])
  }

  predicate BeginsWithGoodChunk(polls: seq<BytesPoll>) {
    exists k :: 0 <= k < |polls| && GoodChunk(polls[k]) && forall j :: 0 <= j < k ==> HandsOutNothing(polls[j])
  }

  predicate GoodEvent(poll: EventPoll) {
    poll.Ready? && poll.item.Some? && poll.item.value.Ok? && !poll.item.value.value.Error?
  }

  predicate GoodChunk(poll: BytesPoll) {
    poll.Ready? && poll.item.Some? && poll.item.value.Ok?
  }

  predicate HandsOutNothing<T>(poll: Poll<T>) {
    poll.Pending? || poll.item.None?
  }

  lemma {:induction false} FirstVerdictIs(verdicts: seq<Option<bool>>, b: bool)
    ensures FirstVerdict(verdicts) == Some(b) <==>
            exists k :: 0 <= k < |verdicts| && verdicts[k] == Some(b) && forall j :: 0 <= j < k ==> verdicts[j].None?
    ensures FirstVerdict(verdicts).None? <==> forall j :: 0 <= j < |verdicts| ==> verdicts[j].None?
  {
    if verdicts != [] {
      var n := |verdicts| - 1;
      FirstVerdictIs(verdicts[..n], b);
      assert forall k :: 0 <= k < n ==> verdicts[..n][k] == verdicts[k];
    }
  }

  /** What the polls decide, in terms of what they handed out. */
  lemma EventsDecide(events: seq<EventPoll>)
    ensures FirstVerdict(EventVerdicts(events)) == Some(true) <==> BeginsWithGoodEvent(events)
  {
    var verdicts := EventVerdicts(events);
    FirstVerdictIs(verdicts, true);
    forall i | 0 <= i < |events|
      ensures verdicts[i] == Some(true) <==> GoodEvent(events[i])
      ensures verdicts[i].None? <==> HandsOutNothing(events[i])
    {
    }
    if BeginsWithGoodEvent(events) {
      var k :| 0 <= k < |events| && GoodEvent(events[k]) && forall j :: 0 <= j < k ==> HandsOutNothing(events[j]);
      assert verdicts[k] == Some(true);
    }
  }

  lemma ChunksDecide(chunks: seq<BytesPoll>)
    ensures FirstVerdict(BytesVerdicts(chunks)) == Some(true) <==> BeginsWithGoodChunk(chunks)
  {
    var verdicts := BytesVerdicts(chunks);
    FirstVerdictIs(verdicts, true);
    forall i | 0 <= i < |chunks|
      ensures verdicts[i] == Some(true) <==> GoodChunk(chunks[i])
      ensures verdicts[i].None? <==> HandsOutNothing(chunks[i])
    {
    }
    if BeginsWithGoodChunk(chunks) {
      var k :| 0 <= k < |chunks| && GoodChunk(chunks[k]) && forall j :: 0 <= j < k ==> HandsOutNothing(chunks[j]);
      assert verdicts[k] == Some(true);
    }
  }

  /** Element j's stream was the response, and it began well. */
  predicate BeganWell(r: Dispatched, j: nat, events: seq<EventPoll>, bytes: seq<BytesPoll>) {
    || (r.RawResponse? && j == 0 && BeginsWithGoodChunk(bytes))
    || (r.Canonical? && r.result.Streaming? && r.result.index == j && BeginsWithGoodEvent(events))
  }

  lemma WinnerBeganWell(r: Dispatched, j: nat, events: seq<EventPoll>, bytes: seq<BytesPoll>)
    ensures Winner(r, events, bytes) == Some(j) <==> BeganWell(r, j, events, bytes)
  {
    EventsDecide(events);
    ChunksDecide(bytes);
  }

  /**
   A ticket's whole life after admission. However it ends, the log has grown by exactly one
   record for each hold, in chain order, and only the winner's is a success.
   */
  method Serve(ticket: AdmissionTicket, tryRaw: bool, answer: RawAnswer, providers: set<string>,
               calls: nat -> (nat -> CallResult), draws: nat -> (nat -> Fraction),
               events: seq<EventPoll>, bytes: seq<BytesPoll>)
    returns (r: Dispatched)
    requires ticket.Valid() && !ticket.consumed && ticket.chain != []
    modifies ticket, ticket.registry.Repr(), ticket.holds
    ensures r.RawProviderMissing? <==> tryRaw && ticket.chain[0].provider !in providers
    ensures r.RawResponse? <==> tryRaw && ticket.chain[0].provider in providers && answer == RawStream
    ensures r.Canonical? ==> Outcomes(old(WalkOf(ticket, providers, calls, draws)), r.result)
    ensures ticket.registry.Valid()
    ensures Settled(old(ticket.registry.log), ticket.registry.log, old(Grants(ticket.holds)), Winner(r, events, bytes))
  {
    var stream;
    r, stream := Dispatch(ticket, tryRaw, answer, providers, calls, draws);
    if stream != null {
      if r.RawResponse? {
        ServeBytes(stream, bytes);
      } else {
        ServeEvents(stream, events);
      }
    }
  }

  /** An error of the walk that reaches the client after admission: never breakers-open, always one a provider call returned. */
  ghost predicate FromProvider(error: ResilienceError, n: nat, calls: nat -> (nat -> CallResult)) {
    && !error.AllBreakersOpen?
    && exists i, k :: 0 <= i < n && 1 <= k &&
         calls(i)(k) == Err(if error.TerminalError? then error.error else error.lastError)
  }

  /** The ticket is as `Admit` issues it, and every provider it names is registered. */
  ghost predicate Servable(ticket: AdmissionTicket, providers: set<string>)
    reads ticket, ticket.registry, ticket.registry.clock, ticket.registry.breakers.Values, ticket.holds
  {
    ticket.Fresh() && ticket.chain != [] && forall t :: t in ticket.chain ==> t.provider in providers
  }

  /** `Serve` for an admitted ticket: each hold ends with exactly one record, a success only for the winner. */
  method ServeAdmitted(ticket: AdmissionTicket, tryRaw: bool, answer: RawAnswer, providers: set<string>,
                       calls: nat -> (nat -> CallResult), draws: nat -> (nat -> Fraction),
                       events: seq<EventPoll>, bytes: seq<BytesPoll>)
    returns (r: Dispatched)
    requires Servable(ticket, providers)
    modifies ticket, ticket.registry.Repr(), ticket.holds
    ensures ticket.registry.Valid()
    ensures Accounted(old(ticket.registry.log), ticket.registry.log, old(Grants(ticket.holds)), Winner(r, events, bytes))
    ensures !r.RawProviderMissing?
    ensures r.RawResponse? <==> tryRaw && answer == RawStream
    ensures r.Canonical? ==>
            Outcomes(WalkFrom(ticket.chain, old(Grants(ticket.holds)), providers, ticket.route.retry, calls, draws), r.result)
    ensures r.Canonical? && r.result.Failed? ==> FromProvider(r.result.error, |ticket.chain|, calls)
  {
    WalkOfIsWalkFrom(ticket, providers, calls, draws);
    ghost var before, grants := ticket.registry.log, Grants(ticket.holds);
    ghost var w := WalkOf(ticket, providers, calls, draws);
    assert ticket.chain[0] in ticket.chain;
    ghost var i :| 0 <= i < |ticket.holds| && ticket.holds[i] != null;
    assert w.held[i];
    r := Serve(ticket, tryRaw, answer, providers, calls, draws, events, bytes);
    ServedAccounts(before, ticket.registry.log, grants, Winner(r, events, bytes));
    if r.Canonical? {
      AdmittedExits(w, r.result);
    }
  }

  /** The log has grown by exactly the ticket's own records, and each granted hold has exactly one. */
  ghost predicate Accounted(before: Log, after: Log, grants: seq<Option<nat>>, winner: Option<nat>) {
    && Settled(before, after, grants, winner)
    && forall j :: 0 <= j < |grants| && grants[j].Some? ==> RecordsFor(after, grants[j].value) == [winner == Some(j)]
  }

  /**
   One request from admission to the end of its response, with one provider map throughout. A rejected
   request records nothing; an admitted one leaves exactly one record for each hold it was granted,
   a success only for the winner: the head if the raw path answered, otherwise the first held element
   of the chain to succeed (`ChainWalk.StreamsFromFirstSuccess`), if its first item was good.
   */
  method Handle(registry: BreakerRegistry, g: Gates, resolved: ResolvedRoute, tryRaw: bool, answer: RawAnswer,
                calls: nat -> (nat -> CallResult), draws: nat -> (nat -> Fraction),
                events: seq<EventPoll>, bytes: seq<BytesPoll>)
    returns (r: Result<Dispatched, AdmissionError>, ghost asked: Log, ghost grants: seq<Option<nat>>)
    requires registry.Valid()
    modifies registry.Repr()
    ensures registry.Valid()
    ensures r.Err? ==> Records(registry.log) == old(Records(registry.log))
    ensures GateError(g, resolved.chain).Some? ==> r.Err? && registry.log == old(registry.log)
    ensures r.Err? && GateError(g, resolved.chain).None? ==>
            var chain := Filtered(g, resolved.chain);
            Asked(old(registry.log), registry.log, chain, resolved.breaker, NoGrants(|chain|))
    ensures r.Ok? ==>
            && |grants| == |Filtered(g, resolved.chain)| > 0
            && (exists j :: 0 <= j < |grants| && grants[j].Some?)
            && Asked(old(registry.log), asked, Filtered(g, resolved.chain), resolved.breaker, grants)
            && Accounted(asked, registry.log, grants, Winner(r.value, events, bytes))
            && !r.value.RawProviderMissing? && (r.value.RawResponse? <==> tryRaw && answer == RawStream)
    ensures r.Ok? ==> forall j :: 0 <= j < |grants| && grants[j].Some? ==>
              RecordsFor(registry.log, grants[j].value) == [BeganWell(r.value, j, events, bytes)]
    ensures r.Ok? && r.value.Canonical? ==>
            Outcomes(WalkFrom(Filtered(g, resolved.chain), grants, g.providers.Keys, resolved.retry, calls, draws),
                     r.value.result)
    ensures r.Ok? && r.value.Canonical? && r.value.result.Failed? ==>
            FromProvider(r.value.result.error, |Filtered(g, resolved.chain)|, calls)
  {
    var admitted := Admit(registry, g, resolved);
    if admitted.Err? {
      return Err(admitted.error), [], [];
    }
    var ticket := admitted.value;
    asked, grants := registry.log, Grants(ticket.holds);
    HoldIsGrant(ticket);
    var served := ServeAdmitted(ticket, tryRaw, answer, g.providers.Keys, calls, draws, events, bytes);
    RecordsSayWhoBeganWell(asked, registry.log, grants, served, events, bytes);
    return Ok(served), asked, grants;
  }

  lemma RecordsSayWhoBeganWell(before: Log, after: Log, grants: seq<Option<nat>>, r: Dispatched,
                               events: seq<EventPoll>, bytes: seq<BytesPoll>)
    requires Accounted(before, after, grants, Winner(r, events, bytes))
    ensures forall j :: 0 <= j < |grants| && grants[j].Some? ==>
              RecordsFor(after, grants[j].value) == [BeganWell(r, j, events, bytes)]
  {
    forall j: nat
      ensures Winner(r, events, bytes) == Some(j) <==> BeganWell(r, j, events, bytes)
    {
      WinnerBeganWell(r, j, events, bytes);
    }
  }

  lemma HoldIsGrant(ticket: AdmissionTicket)
    requires ticket.Fresh()
    ensures exists j :: 0 <= j < |Grants(ticket.holds)| && Grants(ticket.holds)[j].Some?
  {
    var j :| 0 <= j < |ticket.holds| && ticket.holds[j] != null;
    assert Grants(ticket.holds)[j].Some?;
  }

  lemma ServedAccounts(before: Log, after: Log, grants: seq<Option<nat>>, winner: Option<nat>)
    requires Legal(after) && Settled(before, after, grants, winner)
    ensures Accounted(before, after, grants, winner)
  {
    forall j | 0 <= j < |grants| && grants[j].Some?
      ensures RecordsFor(after, grants[j].value) == [winner == Some(j)]
    {
      ExactlyOneRecordEach(before, after, grants, winner, j);
    }
  }
}

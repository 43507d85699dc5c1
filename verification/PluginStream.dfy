/**
 The per-event stream hook. The code pushes a buffer of events through one plugin after
 another, level by level; `Through` is the event-at-a-time composition of the plugins in the
 list monad (a skipped call is the identity). The two agree, and a failure is attributed to
 the earliest plugin in list order that fails.
 */
module PluginStream {
  import opened Wrappers
  import opened Sequences
  import opened StreamEvents
  import opened PluginInvoke

  /** A stateless stream plugin: what it does with one event depends on the event alone. */
  datatype StreamPlugin = StreamPlugin(
    name: string,
    enabled: bool,
    onError: OnError,
    behave: StreamEvent -> HookResult<seq<StreamEvent>>)

  type Expansion = Result<seq<StreamEvent>, PluginError>

  function Call(p: StreamPlugin, ev: StreamEvent): Expansion {
    if !p.enabled then Ok([ev])
    else
      match Invoke(p.name, "on_stream_event", p.onError, p.behave(ev))
      case Success(es) => Ok(es)
      case Skipped => Ok([ev])
      case Propagate(e) => Err(e)
  }

  /**
   One call in terms of what the plugin did: a disabled plugin and a skipped error leave the event as
   it was; an abort always ends the expansion, and any other error or a timeout does so under `fail`.
   */
  lemma CallIs(p: StreamPlugin, ev: StreamEvent)
    ensures !p.enabled ==> Call(p, ev) == Ok([ev])
    ensures p.enabled && p.behave(ev).Value? ==> Call(p, ev) == Ok(p.behave(ev).value)
    ensures p.enabled && p.behave(ev).Raised? && (p.behave(ev).error.Aborted? || p.onError == FailOnError) ==>
            Call(p, ev) == Err(p.behave(ev).error)
    ensures p.enabled && p.behave(ev).Elapsed? && p.onError == FailOnError ==>
            Call(p, ev) == Err(Timeout(p.name, "on_stream_event"))
    ensures p.enabled && p.onError == SkipErrors &&
            (p.behave(ev).Elapsed? || (p.behave(ev).Raised? && !p.behave(ev).error.Aborted?)) ==>
            Call(p, ev) == Ok([ev])
  {
  }

  // ---- one event at a time ----

  function Through(ps: seq<StreamPlugin>, ev: StreamEvent): Option<seq<StreamEvent>>
    decreases |ps|, 0
  {
    if ps == [] then Some([ev])
    else
      match Call(ps[0], ev)
      case Ok(es) => ThroughAll(ps[1..], es)
      case Err(_) => None
  }

  function ThroughAll(ps: seq<StreamPlugin>, es: seq<StreamEvent>): Option<seq<StreamEvent>>
    decreases |ps|, |es| + 1
  {
    if es == [] then Some([])
    else
      match (Through(ps, es[0]), ThroughAll(ps, es[1..]))
      case (Some(first), Some(rest)) => Some(first + rest)
      case _ => None
  }

  // ---- level by level ----

  /** One plugin over a whole buffer; the first call to propagate ends it. */
  function Level(p: StreamPlugin, buf: seq<StreamEvent>): Expansion {
    if buf == [] then Ok([])
    else
      var n := |buf| - 1;
      match Level(p, buf[..n])
      case Err(e) => Err(e)
      case Ok(done) =>
        match Call(p, buf[n])
        case Ok(es) => Ok(done + es)
        case Err(e) => Err(e)
  }

  function Levels(ps: seq<StreamPlugin>, buf: seq<StreamEvent>): Expansion {
    if ps == [] then Ok(buf)
    else
      match Levels(ps[..|ps| - 1], buf)
      case Ok(next) => Level(ps[|ps| - 1], next)
      case Err(e) => Err(e)
  }

  lemma {:induction false} LevelStops(p: StreamPlugin, buf: seq<StreamEvent>, n: nat)
    requires n <= |buf| && Level(p, buf[..n]).Err?
    ensures Level(p, buf) == Level(p, buf[..n])
    decreases |buf|
  {
    if n == |buf| {
      assert buf[..n] == buf;
    } else {
      assert buf[..|buf| - 1][..n] == buf[..n];
      LevelStops(p, buf[..|buf| - 1], n);
    }
  }

  lemma {:induction false} LevelsStop(ps: seq<StreamPlugin>, buf: seq<StreamEvent>, n: nat)
    requires n <= |ps| && Levels(ps[..n], buf).Err?
    ensures Levels(ps, buf) == Levels(ps[..n], buf)
    decreases |ps|
  {
    if n == |ps| {
      assert ps[..n] == ps;
    } else {
      assert ps[..|ps| - 1][..n] == ps[..n];
      LevelsStop(ps[..|ps| - 1], buf, n);
    }
  }

  /** The nested loops that run for each upstream event. */
  method Expand(ps: seq<StreamPlugin>, ev: StreamEvent) returns (r: Expansion)
    ensures r == Levels(ps, [ev])
  {
    var buf := [ev];
    for i := 0 to |ps|
      invariant Levels(ps[..i], [ev]) == Ok(buf)
    {
      assert ps[..i + 1][..i] == ps[..i];
      var next := [];
      var j := 0;
      while j < |buf|
        invariant j <= |buf| && Level(ps[i], buf[..j]) == Ok(next)
      {
        assert buf[..j + 1][..j] == buf[..j];
        var outcome := Call(ps[i], buf[j]);
        match outcome {
          case Ok(es) =>
            next := next + es;
          case Err(e) =>
            LevelStops(ps[i], buf, j + 1);
            LevelsStop(ps, [ev], i + 1);
            return Err(e);
        }
        j := j + 1;
      }
      assert buf[..|buf|] == buf;
      buf := next;
    }
    assert ps[..|ps|] == ps;
    return Ok(buf);
  }

  // ---- they agree ----

  /** Events keep their order: what comes of earlier events comes before what comes of later ones. */
  lemma {:induction false} ThroughAllConcat(ps: seq<StreamPlugin>, a: seq<StreamEvent>, b: seq<StreamEvent>)
    ensures ThroughAll(ps, a + b) ==
            match (ThroughAll(ps, a), ThroughAll(ps, b))
            case (Some(x), Some(y)) => Some(x + y)
            case _ => None
  {
    if a == [] {
      assert a + b == b;
      if ThroughAll(ps, b).Some? {
        assert [] + ThroughAll(ps, b).value == ThroughAll(ps, b).value;
      }
    } else {
      assert (a + b)[1..] == a[1..] + b;
      ThroughAllConcat(ps, a[1..], b);
      if Through(ps, a[0]).Some? && ThroughAll(ps, a[1..]).Some? && ThroughAll(ps, b).Some? {
        Associative(Through(ps, a[0]).value, ThroughAll(ps, a[1..]).value, ThroughAll(ps, b).value);
      }
    }
  }

  lemma {:induction false} NoPlugins(es: seq<StreamEvent>)
    ensures ThroughAll([], es) == Some(es)
  {
    if es != [] {
      NoPlugins(es[1..]);
      assert [es[0]] + es[1..] == es;
    }
  }

  /** Associativity: running all but the last plugin and then the last is running them all. */
  lemma {:induction false} LastPlugin(ps: seq<StreamPlugin>, p: StreamPlugin, es: seq<StreamEvent>)
    ensures ThroughAll(ps + [p], es) ==
            match ThroughAll(ps, es)
            case Some(mid) => (match Level(p, mid) case Ok(out) => Some(out) case Err(_) => None)
            case None => None
    decreases |ps|, |es|
  {
    if es == [] {
    } else {
      LastPluginOne(ps, p, es[0]);
      LastPlugin(ps, p, es[1..]);
      if Through(ps, es[0]).Some? && ThroughAll(ps, es[1..]).Some? {
        LevelConcat(p, Through(ps, es[0]).value, ThroughAll(ps, es[1..]).value);
      }
    }
  }

  lemma {:induction false} LastPluginOne(ps: seq<StreamPlugin>, p: StreamPlugin, ev: StreamEvent)
    ensures Through(ps + [p], ev) ==
            match Through(ps, ev)
            case Some(mid) => (match Level(p, mid) case Ok(out) => Some(out) case Err(_) => None)
            case None => None
    decreases |ps|, 0
  {
    if ps == [] {
      assert ([] + [p])[1..] == [];
      assert [ev][..0] == [];
      if Call(p, ev).Ok? {
        NoPlugins(Call(p, ev).value);
        assert [] + Call(p, ev).value == Call(p, ev).value;
      }
    } else {
      assert (ps + [p])[1..] == ps[1..] + [p];
      if Call(ps[0], ev).Ok? {
        LastPlugin(ps[1..], p, Call(ps[0], ev).value);
      }
    }
  }

  lemma {:induction false} LevelConcat(p: StreamPlugin, a: seq<StreamEvent>, b: seq<StreamEvent>)
    ensures Level(p, a).Err? ==> Level(p, a + b) == Level(p, a)
    ensures Level(p, a).Ok? && Level(p, b).Err? ==> Level(p, a + b) == Level(p, b)
    ensures Level(p, a).Ok? && Level(p, b).Ok? ==> Level(p, a + b) == Ok(Level(p, a).value + Level(p, b).value)
  {
    if b == [] {
      assert a + b == a;
      if Level(p, a).Ok? {
        assert Level(p, a).value + [] == Level(p, a).value;
      }
    } else {
      var n := |b| - 1;
      assert (a + b)[..|a| + n] == a + b[..n];
      LevelConcat(p, a, b[..n]);
      if Level(p, a).Ok? && Level(p, b[..n]).Ok? && Call(p, b[n]).Ok? {
        var x, y, z := Level(p, a).value, Level(p, b[..n]).value, Call(p, b[n]).value;
        assert (x + y) + z == x + (y + z);
      }
    }
  }

  /** Level by level and event by event give the same events, and fail on the same inputs. */
  lemma {:induction false} LevelsAreComposition(ps: seq<StreamPlugin>, ev: StreamEvent)
    ensures Levels(ps, [ev]).Ok? <==> Through(ps, ev).Some?
    ensures Levels(ps, [ev]).Ok? ==> Levels(ps, [ev]).value == Through(ps, ev).value
  {
    if ps != [] {
      var init, p := ps[..|ps| - 1], ps[|ps| - 1];
      LevelsAreComposition(init, ev);
      LastPluginOne(init, p, ev);
      assert ps == init + [p];
    }
  }

  /** Plugin l fails with e on the events that the plugins before it make of `ev`. */
  ghost predicate FailsAt(ps: seq<StreamPlugin>, ev: StreamEvent, l: nat, e: PluginError) {
    && l < |ps|
    && Through(ps[..l], ev).Some?
    && exists j :: FirstFailure(ps[l], Through(ps[..l], ev).value, j, e)
  }

  ghost predicate FirstFailure(p: StreamPlugin, buf: seq<StreamEvent>, j: nat, e: PluginError) {
    && j < |buf| && Call(p, buf[j]) == Err(e)
    && forall i :: 0 <= i < j ==> Call(p, buf[i]).Ok?
  }

  lemma {:induction false} LevelFailure(p: StreamPlugin, buf: seq<StreamEvent>, e: PluginError)
    ensures Level(p, buf) == Err(e) <==> exists j :: FirstFailure(p, buf, j, e)
    ensures Level(p, buf).Ok? <==> forall i :: 0 <= i < |buf| ==> Call(p, buf[i]).Ok?
  {
    if buf != [] {
      var n := |buf| - 1;
      LevelFailure(p, buf[..n], e);
      if j: nat :| FirstFailure(p, buf[..n], j, e) {
        assert FirstFailure(p, buf, j, e);
      }
      if j: nat :| FirstFailure(p, buf, j, e) {
        if j < n {
          assert FirstFailure(p, buf[..n], j, e);
        }
      }
      if Level(p, buf[..n]).Ok? && Call(p, buf[n]) == Err(e) {
        assert FirstFailure(p, buf, n, e);
      }
    }
  }

  /** The error reported is that of the earliest plugin in list order that fails, at its first failing event. */
  lemma {:induction false} ErrorIsEarliest(ps: seq<StreamPlugin>, ev: StreamEvent, e: PluginError)
    ensures Levels(ps, [ev]) == Err(e) <==> exists l :: FailsAt(ps, ev, l, e)
  {
    if ps != [] {
      var n := |ps| - 1;
      var init, p := ps[..n], ps[n];
      ErrorIsEarliest(init, ev, e);
      LevelsAreComposition(init, ev);
      forall l | 0 <= l < n
        ensures FailsAt(init, ev, l, e) <==> FailsAt(ps, ev, l, e)
      {
        assert init[..l] == ps[..l];
      }
      if Levels(init, [ev]).Ok? {
        LevelFailure(p, Levels(init, [ev]).value, e);
        assert FailsAt(ps, ev, n, e) <==> Levels(ps, [ev]) == Err(e);
      } else {
        assert !FailsAt(ps, ev, n, e);
      }
    }
  }

  // ---- the whole stream ----

  type Item = Result<StreamEvent, string>

  function Oks(es: seq<StreamEvent>): seq<Item> {
    seq(|es|, i requires 0 <= i < |es| => Ok(es[i]))
  }

  /** What one upstream item turns into. `describe` renders an error. */
  function Rendered(ps: seq<StreamPlugin>, describe: PluginError -> string, item: Item): seq<Item> {
    match item
    case Err(e) => [Err(e)]
    case Ok(ev) =>
      match Levels(ps, [ev])
      case Ok(es) => Oks(es)
      case Err(e) => [Ok(Error(describe(e)))]
  }

  /** An upstream error stays in its place; an event becomes its expansion, or one Error event if a plugin propagates. */
  lemma RenderedIs(ps: seq<StreamPlugin>, describe: PluginError -> string, item: Item)
    ensures item.Err? ==> Rendered(ps, describe, item) == [item]
    ensures item.Ok? && Through(ps, item.value).None? ==>
            exists e :: (exists l :: FailsAt(ps, item.value, l, e)) && Rendered(ps, describe, item) == [Ok(Error(describe(e)))]
    ensures item.Ok? && Through(ps, item.value).Some? ==>
            && |Rendered(ps, describe, item)| == |Through(ps, item.value).value|
            && forall i :: 0 <= i < |Through(ps, item.value).value| ==>
                 Rendered(ps, describe, item)[i] == Ok(Through(ps, item.value).value[i])
  {
    if item.Ok? {
      LevelsAreComposition(ps, item.value);
      if Levels(ps, [item.value]).Err? {
        var e := Levels(ps, [item.value]).error;
        ErrorIsEarliest(ps, item.value, e);
        assert (exists l :: FailsAt(ps, item.value, l, e)) && Rendered(ps, describe, item) == [Ok(Error(describe(e)))];
      }
    }
  }

  function Wrapped(ps: seq<StreamPlugin>, describe: PluginError -> string, upstream: seq<Item>): seq<Item> {
    if upstream == [] then []
    else
      var n := |upstream| - 1;
      Wrapped(ps, describe, upstream[..n]) + Rendered(ps, describe, upstream[n])
  }

  function CountOk(upstream: seq<Item>): nat {
    if upstream == [] then 0
    else CountOk(upstream[..|upstream| - 1]) + (if upstream[|upstream| - 1].Ok? then 1 else 0)
  }

  predicate Replaced(ps: seq<StreamPlugin>, item: Item) {
    item.Ok? && Through(ps, item.value).None?
  }

  function CountReplaced(ps: seq<StreamPlugin>, upstream: seq<Item>): nat {
    if upstream == [] then 0
    else CountReplaced(ps, upstream[..|upstream| - 1]) + (if Replaced(ps, upstream[|upstream| - 1]) then 1 else 0)
  }

  /** The counters count positions. */
  lemma {:induction false} OksCounted(upstream: seq<Item>)
    ensures CountOk(upstream) == |set i | 0 <= i < |upstream| && upstream[i].Ok?|
  {
    if upstream != [] {
      var n := |upstream| - 1;
      OksCounted(upstream[..n]);
      var before := set i | 0 <= i < n && upstream[..n][i].Ok?;
      var all := set i | 0 <= i < |upstream| && upstream[i].Ok?;
      assert all == if upstream[n].Ok? then before + {n} else before;
    }
  }

  /** The positions of upstream events on which the plugins fail. */
  function FailingPositions(ps: seq<StreamPlugin>, upstream: seq<Item>): set<int> {
    set i | 0 <= i < |upstream| && upstream[i].Ok? && Through(ps, upstream[i].value).None?
  }

  lemma {:induction false} ReplacedCounted(ps: seq<StreamPlugin>, upstream: seq<Item>)
    ensures CountReplaced(ps, upstream) == |FailingPositions(ps, upstream)|
  {
    if upstream != [] {
      var n := |upstream| - 1;
      var before := FailingPositions(ps, upstream[..n]);
      ReplacedCounted(ps, upstream[..n]);
      assert FailingPositions(ps, upstream) == if Replaced(ps, upstream[n]) then before + {n} else before;
    }
  }

  /** With no subscriber the upstream is returned as it is; otherwise the two counters feed the stream's span. */
  method WrapStream(ps: seq<StreamPlugin>, describe: PluginError -> string, upstream: seq<Item>)
    returns (out: seq<Item>, eventCount: nat, failureCount: nat)
    ensures out == Wrapped(ps, describe, upstream)
    ensures ps == [] ==> out == upstream
    ensures ps != [] ==> eventCount == CountOk(upstream) && failureCount == CountReplaced(ps, upstream)
  {
    if ps == [] {
      NoSubscribers(describe, upstream);
      return upstream, 0, 0;
    }
    out, eventCount, failureCount := [], 0, 0;
    for i := 0 to |upstream|
      invariant out == Wrapped(ps, describe, upstream[..i])
      invariant eventCount == CountOk(upstream[..i]) && failureCount == CountReplaced(ps, upstream[..i])
    {
      assert upstream[..i + 1][..i] == upstream[..i];
      match upstream[i] {
        case Err(e) =>
          out := out + [Err(e)];
        case Ok(ev) =>
          eventCount := eventCount + 1;
          LevelsAreComposition(ps, ev);
          var expansion := Expand(ps, ev);
          match expansion {
            case Ok(es) =>
              out := out + Oks(es);
            case Err(e) =>
              failureCount := failureCount + 1;
              out := out + [Ok(Error(describe(e)))];
          }
      }
    }
    assert upstream[..|upstream|] == upstream;
  }

  lemma {:induction false} NoSubscribers(describe: PluginError -> string, upstream: seq<Item>)
    ensures Wrapped([], describe, upstream) == upstream
  {
    if upstream != [] {
      var init, item := upstream[..|upstream| - 1], upstream[|upstream| - 1];
      NoSubscribers(describe, init);
      WrappedSnoc([], describe, init, item);
      RenderedUnchanged(describe, item);
      assert init + [item] == upstream;
    }
  }

  lemma RenderedUnchanged(describe: PluginError -> string, item: Item)
    ensures Rendered([], describe, item) == [item]
  {
  }

  /** Order is kept and each upstream item is handled on its own. */
  lemma {:induction false} WrappedConcat(ps: seq<StreamPlugin>, describe: PluginError -> string, a: seq<Item>, b: seq<Item>)
    ensures Wrapped(ps, describe, a + b) == Wrapped(ps, describe, a) + Wrapped(ps, describe, b)
  {
    if b == [] {
      assert a + b == a;
      assert Wrapped(ps, describe, a) + [] == Wrapped(ps, describe, a);
    } else {
      var init, item := b[..|b| - 1], b[|b| - 1];
      WrappedConcat(ps, describe, a, init);
      WrappedConcatSnoc(ps, describe, a, init, item, b);
    }
  }

  lemma WrappedConcatSnoc(ps: seq<StreamPlugin>, describe: PluginError -> string, a: seq<Item>, b: seq<Item>, item: Item,
                          longer: seq<Item>)
    requires Wrapped(ps, describe, a + b) == Wrapped(ps, describe, a) + Wrapped(ps, describe, b) && longer == b + [item]
    ensures Wrapped(ps, describe, a + longer) == Wrapped(ps, describe, a) + Wrapped(ps, describe, longer)
  {
    WrappedSnoc(ps, describe, a + b, item);
    WrappedSnoc(ps, describe, b, item);
    Associative(a, b, [item]);
    Associative(Wrapped(ps, describe, a), Wrapped(ps, describe, b), Rendered(ps, describe, item));
  }

  lemma WrappedSnoc(ps: seq<StreamPlugin>, describe: PluginError -> string, a: seq<Item>, item: Item)
    ensures Wrapped(ps, describe, a + [item]) == Wrapped(ps, describe, a) + Rendered(ps, describe, item)
  {
    assert (a + [item])[..|a|] == a;
  }

  /** The plugins turn the item into nothing. */
  predicate Vanishes(ps: seq<StreamPlugin>, item: Item) {
    item.Ok? && Through(ps, item.value) == Some([])
  }

  lemma WrappedStep(ps: seq<StreamPlugin>, describe: PluginError -> string, upstream: seq<Item>, n: nat)
    requires n < |upstream|
    ensures Wrapped(ps, describe, upstream[..n + 1]) == [] <==>
            Wrapped(ps, describe, upstream[..n]) == [] && Vanishes(ps, upstream[n])
  {
    assert upstream[..n + 1] == upstream[..n] + [upstream[n]];
    WrappedSnoc(ps, describe, upstream[..n], upstream[n]);
    RenderedEmptyIff(ps, describe, upstream[n]);
  }

  lemma WrappedEmptyIff(ps: seq<StreamPlugin>, describe: PluginError -> string, upstream: seq<Item>)
    ensures Wrapped(ps, describe, upstream) == [] <==> forall i :: 0 <= i < |upstream| ==> Vanishes(ps, upstream[i])
  {
    var something := (m: nat) => m <= |upstream| && Wrapped(ps, describe, upstream[..m]) != [];
    var remains := (m: nat) => m < |upstream| && !Vanishes(ps, upstream[m]);
    forall m: nat | m < |upstream|
      ensures something(m + 1) <==> something(m) || remains(m)
    {
      WrappedStep(ps, describe, upstream, m);
    }
    assert upstream[..0] == [];
    Accumulates(something, remains, |upstream|);
    assert upstream[..|upstream|] == upstream;
    assert forall i :: 0 <= i < |upstream| ==> (Vanishes(ps, upstream[i]) <==> !remains(i));
  }

  lemma RenderedEmptyIff(ps: seq<StreamPlugin>, describe: PluginError -> string, item: Item)
    ensures Rendered(ps, describe, item) == [] <==> Vanishes(ps, item)
  {
    if item.Ok? {
      LevelsAreComposition(ps, item.value);
      if Levels(ps, [item.value]).Ok? {
        assert |Rendered(ps, describe, item)| == |Levels(ps, [item.value]).value|;
      }
    }
  }

  /**
   The documentation says the wrapper stops after a plugin failure. It goes on: the output ends with
   the replaced event exactly if the plugins turn every later upstream item into nothing.
   */
  lemma StopsAfterFailureIff(ps: seq<StreamPlugin>, describe: PluginError -> string,
                             before: seq<Item>, failing: Item, later: seq<Item>)
    requires Replaced(ps, failing)
    ensures Wrapped(ps, describe, before + [failing] + later) == Wrapped(ps, describe, before + [failing]) <==>
            forall i :: 0 <= i < |later| ==> Vanishes(ps, later[i])
  {
    WrappedConcat(ps, describe, before + [failing], later);
    WrappedEmptyIff(ps, describe, later);
  }

  /** The plugin answers every event with at least one event, or not at all. */
  ghost predicate NeverDrops(p: StreamPlugin) {
    forall ev :: Call(p, ev).Ok? ==> Call(p, ev).value != []
  }

  lemma {:induction false} NothingVanishes(ps: seq<StreamPlugin>, es: seq<StreamEvent>)
    requires forall p :: p in ps ==> NeverDrops(p)
    ensures ThroughAll(ps, es) == Some([]) ==> es == []
    decreases |ps|, |es|
  {
    if es != [] {
      NothingVanishesOne(ps, es[0]);
    }
  }

  lemma {:induction false} NothingVanishesOne(ps: seq<StreamPlugin>, ev: StreamEvent)
    requires forall p :: p in ps ==> NeverDrops(p)
    ensures Through(ps, ev) != Some([])
    decreases |ps|, 0
  {
    if ps != [] {
      assert NeverDrops(ps[0]) && forall p :: p in ps[1..] ==> p in ps;
      if Call(ps[0], ev).Ok? {
        NothingVanishes(ps[1..], Call(ps[0], ev).value);
      }
    }
  }

  /** With plugins that never drop an event, the output ends with the replaced event only if the upstream does. */
  lemma NeverStopsIfNothingDropped(ps: seq<StreamPlugin>, describe: PluginError -> string,
                                   before: seq<Item>, failing: Item, later: seq<Item>)
    requires Replaced(ps, failing) && forall p :: p in ps ==> NeverDrops(p)
    ensures Wrapped(ps, describe, before + [failing] + later) == Wrapped(ps, describe, before + [failing]) <==> later == []
  {
    StopsAfterFailureIff(ps, describe, before, failing, later);
    if later != [] && later[0].Ok? {
      NothingVanishesOne(ps, later[0].value);
    }
  }

  /** A plugin that fails on one kind of event and passes every other. */
  function Picky(ev: StreamEvent): HookResult<seq<StreamEvent>> {
    if ev.MessageStart? then Raised(Failed("p", "on_stream_event", "")) else Value([ev])
  }

  const PICKY := StreamPlugin("p", true, FailOnError, Picky)

  /** A concrete stream that goes on after a failure. */
  lemma GoesOnAfterFailure(describe: PluginError -> string)
    ensures var failing, later: seq<Item> := Ok(MessageStart("")), [Ok(MessageStop(""))];
            Replaced([PICKY], failing) &&
            Wrapped([PICKY], describe, [] + [failing] + later) != Wrapped([PICKY], describe, [] + [failing])
  {
    var failing: Item := Ok(MessageStart(""));
    var later: seq<Item> := [Ok(MessageStop(""))];
    assert [PICKY][1..] == [];
    NoPlugins([MessageStop("")]);
    assert Call(PICKY, MessageStop("")) == Ok([MessageStop("")]);
    assert Through([PICKY], later[0].value) == Some([MessageStop("")]);
    StopsAfterFailureIff([PICKY], describe, [], failing, later);
  }
}

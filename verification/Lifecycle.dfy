/**
 The canonical stream lifecycle. `Grammar` says declaratively, over a whole trace, what a
 well-formed stream is; `Validate` is the one-pass validator. They are shown to agree on every
 sequence of events under every setting of the strictness toggles.
 */
module Lifecycle {
  import opened Sequences
  import opened StreamEvents

  datatype StrictRules = StrictRules(messageStartFirst: bool, singleStart: bool, responseStopLast: bool)

  const DEFAULT_RULES := StrictRules(true, true, true)

  type Trace = seq<StreamEvent>

  /** Events that belong to one content block. */
  predicate IsBlockEvent(e: StreamEvent) {
    e.ContentBlockStart? || e.TextDelta? || e.ReasoningDelta? || e.ToolCallStart? ||
    e.ToolCallArgumentsDelta? || e.ToolCallStop? || e.ContentBlockStop?
  }

  /** The events of block x, in order. */
  function Project(t: Trace, x: nat): Trace {
    if t == [] then []
    else
      var e := t[|t| - 1];
      Project(t[..|t| - 1], x) + (if IsBlockEvent(e) && e.index == x then [e] else [])
  }

  /** What may stand between the start and the stop of a block of a given kind. */
  predicate Matches(kind: ContentBlockKind, e: StreamEvent) {
    || (kind == Text && e.TextDelta?)
    || (kind == Reasoning && e.ReasoningDelta?)
    || (kind == ToolCall && (e.ToolCallStart? || e.ToolCallArgumentsDelta? || e.ToolCallStop?))
  }

  // ---- the grammar ----

  /** One start followed by events of its kind only. */
  predicate OpenWord(w: Trace) {
    w != [] && w[0].ContentBlockStart? && forall i :: 1 <= i < |w| ==> Matches(w[0].kind, w[i])
  }

  predicate HasToolStop(w: Trace) {
    exists i :: 0 <= i < |w| && w[i].ToolCallStop?
  }

  /** An open word and then one stop, after a tool-call stop if it is a tool block. */
  predicate ClosedWord(w: Trace) {
    w != [] && w[|w| - 1].ContentBlockStop? && OpenWord(w[..|w| - 1]) &&
    (w[0].kind == ToolCall ==> HasToolStop(w[..|w| - 1]))
  }

  predicate BlockWord(w: Trace, mustClose: bool) {
    w == [] || ClosedWord(w) || (!mustClose && OpenWord(w))
  }

  /** Rule 3's subject: everything that may not follow MessageStop. */
  predicate IsContent(e: StreamEvent) {
    e.MessageStart? || IsBlockEvent(e)
  }

  ghost predicate Grammar(t: Trace, strict: StrictRules, mustClose: bool) {
    && (forall x :: BlockWord(Project(t, x), mustClose))
    && (forall j :: 0 <= j < |t| ==> Ordered(t, j, strict))
  }

  /** The ordering rules, for the event at position j. */
  predicate Ordered(t: Trace, j: nat, strict: StrictRules)
    requires j < |t|
  {
    && (IsContent(t[j]) ==> forall i :: 0 <= i < j ==> !t[i].MessageStop?)
    && (t[j].ResponseStop? ==> exists i :: 0 <= i < j && t[i].MessageStop?)
    && (strict.messageStartFirst && t[j].ContentBlockStart? ==> exists i :: 0 <= i < j && t[i].MessageStart?)
    && (strict.singleStart ==> forall i :: 0 <= i < j ==> !SameBracket(t[i], t[j]))
    && (strict.responseStopLast && !t[j].ResponseStart? && !t[j].ResponseStop? ==>
         forall i :: 0 <= i < j ==> !t[i].ResponseStop?)
  }

  /** Both are the same one of the four message and response brackets. */
  predicate SameBracket(d: StreamEvent, e: StreamEvent) {
    || (d.ResponseStart? && e.ResponseStart?) || (d.MessageStart? && e.MessageStart?)
    || (d.MessageStop? && e.MessageStop?) || (d.ResponseStop? && e.ResponseStop?)
  }

  function FirstError(t: Trace): (n: nat)
    ensures n <= |t| && (n < |t| ==> t[n].Error?)
    ensures forall i :: 0 <= i < n ==> !t[i].Error?
  {
    if t == [] || t[0].Error? then 0 else 1 + FirstError(t[1..])
  }

  /** Whatever follows an error is ignored; an error that ends the trace does not excuse open blocks. */
  ghost predicate Accepts(t: Trace, strict: StrictRules) {
    Grammar(t[..FirstError(t)], strict, FirstError(t) + 1 >= |t|)
  }

  // ---- one block as an automaton ----

  datatype Block = Untouched | Opened(kind: ContentBlockKind, toolStopped: bool) | Closed | Broken

  function BlockStep(b: Block, e: StreamEvent): Block {
    match e
    case ContentBlockStart(_, kind) => if b.Untouched? then Opened(kind, false) else Broken
    case ContentBlockStop(_) =>
      if b.Opened? && (b.kind == ToolCall ==> b.toolStopped) then Closed else Broken
    case _ =>
      if b.Opened? && Matches(b.kind, e) then Opened(b.kind, b.toolStopped || e.ToolCallStop?) else Broken
  }

  function BlockRun(w: Trace): Block {
    if w == [] then Untouched else BlockStep(BlockRun(w[..|w| - 1]), w[|w| - 1])
  }

  /** The automaton recognises exactly the grammar's words. */
  lemma {:induction false} AutomatonMeaning(w: Trace)
    ensures BlockRun(w).Untouched? <==> w == []
    ensures BlockRun(w).Opened? <==> OpenWord(w)
    ensures BlockRun(w).Opened? ==> BlockRun(w).kind == w[0].kind && BlockRun(w).toolStopped == HasToolStop(w)
    ensures BlockRun(w).Closed? <==> ClosedWord(w)
  {
    if w != [] {
      var init, e := w[..|w| - 1], w[|w| - 1];
      AutomatonMeaning(init);
      assert w == init + [e];
      if OpenWord(w) && |w| > 1 {
        assert Matches(w[0].kind, w[|w| - 1]);
        assert OpenWord(init);
      }
      if HasToolStop(init) {
        var i :| 0 <= i < |init| && init[i].ToolCallStop?;
        assert w[i].ToolCallStop?;
      }
    }
  }

  lemma ProjectSnoc(t: Trace, e: StreamEvent, x: nat)
    ensures Project(t + [e], x) == Project(t, x) + (if IsBlockEvent(e) && e.index == x then [e] else [])
    ensures BlockRun(Project(t + [e], x)) ==
            if IsBlockEvent(e) && e.index == x then BlockStep(BlockRun(Project(t, x)), e) else BlockRun(Project(t, x))
  {
    assert (t + [e])[..|t|] == t;
    var w := Project(t, x);
    assert (w + [e])[..|w|] == w && w + [] == w;
  }

  // ---- the incremental rules ----

  /** Event e may follow the history t. */
  predicate StepOk(t: Trace, e: StreamEvent, strict: StrictRules) {
    && Ordered(t + [e], |t|, strict)
    && (IsBlockEvent(e) ==> !BlockStep(BlockRun(Project(t, e.index)), e).Broken?)
  }

  ghost predicate AllOk(t: Trace, strict: StrictRules) {
    forall j :: 0 <= j < |t| ==> StepOk(t[..j], t[j], strict)
  }

  /** Event j does not break the block it belongs to. */
  predicate BlockOkAt(t: Trace, j: nat)
    requires j < |t|
  {
    IsBlockEvent(t[j]) ==> !BlockStep(BlockRun(Project(t[..j], t[j].index)), t[j]).Broken?
  }

  /** Event j belongs to block x and breaks it. */
  predicate Breaks(t: Trace, x: nat, j: nat) {
    j < |t| && IsBlockEvent(t[j]) && t[j].index == x && !BlockOkAt(t, j)
  }

  lemma LastBreaks(t: Trace, x: nat, n: nat)
    requires n < |t|
    ensures BlockRun(Project(t[..n + 1], x)).Broken? <==> BlockRun(Project(t[..n], x)).Broken? || Breaks(t, x, n)
  {
    assert t[..n + 1] == t[..n] + [t[n]];
    ProjectSnoc(t[..n], t[n], x);
  }

  /** A projection is broken exactly if one of its own events breaks it. */
  lemma BlockOk(t: Trace, x: nat)
    ensures BlockRun(Project(t, x)).Broken? <==> exists j: nat :: Breaks(t, x, j)
  {
    var broken := (m: nat) => m <= |t| && BlockRun(Project(t[..m], x)).Broken?;
    var breaks := (m: nat) => Breaks(t, x, m);
    forall m: nat | m < |t|
      ensures broken(m + 1) <==> broken(m) || breaks(m)
    {
      LastBreaks(t, x, m);
    }
    assert t[..0] == [];
    Accumulates(broken, breaks, |t|);
    assert t[..|t|] == t;
    assert forall j: nat :: Breaks(t, x, j) <==> j < |t| && breaks(j);
  }

  ghost predicate NoneOpen(t: Trace) {
    forall x :: !BlockRun(Project(t, x)).Opened?
  }

  lemma WordIff(t: Trace, x: nat, mustClose: bool)
    ensures BlockWord(Project(t, x), mustClose) <==>
            !BlockRun(Project(t, x)).Broken? && (mustClose ==> !BlockRun(Project(t, x)).Opened?)
  {
    AutomatonMeaning(Project(t, x));
  }

  lemma StepOkIff(t: Trace, j: nat, strict: StrictRules)
    requires j < |t|
    ensures StepOk(t[..j], t[j], strict) <==> Ordered(t, j, strict) && BlockOkAt(t, j)
  {
    var p := t[..j] + [t[j]];
    assert forall i :: 0 <= i <= j ==> p[i] == t[i];
  }

  lemma ChecksImplyGrammar(t: Trace, strict: StrictRules, mustClose: bool)
    requires AllOk(t, strict) && (mustClose ==> NoneOpen(t))
    ensures Grammar(t, strict, mustClose)
  {
    forall j | 0 <= j < |t|
      ensures Ordered(t, j, strict) && BlockOkAt(t, j)
    {
      StepOkIff(t, j, strict);
    }
    forall x: nat
      ensures BlockWord(Project(t, x), mustClose)
    {
      WordIff(t, x, mustClose);
      BlockOk(t, x);
      assert forall j: nat :: !Breaks(t, x, j);
    }
  }

  lemma GrammarImpliesChecks(t: Trace, strict: StrictRules, mustClose: bool)
    requires Grammar(t, strict, mustClose)
    ensures AllOk(t, strict) && (mustClose ==> NoneOpen(t))
  {
    forall x: nat
      ensures !BlockRun(Project(t, x)).Broken? && (mustClose ==> !BlockRun(Project(t, x)).Opened?)
    {
      assert BlockWord(Project(t, x), mustClose);
      WordIff(t, x, mustClose);
    }
    forall j | 0 <= j < |t|
      ensures StepOk(t[..j], t[j], strict)
    {
      StepOkIff(t, j, strict);
      assert Ordered(t, j, strict);
      if IsBlockEvent(t[j]) {
        BlockOk(t, t[j].index);
        assert !Breaks(t, t[j].index, j);
      }
    }
  }

  /** Passing every incremental check, with no block left open if that matters, is the grammar. */
  lemma GrammarIff(t: Trace, strict: StrictRules, mustClose: bool)
    ensures AllOk(t, strict) && (mustClose ==> NoneOpen(t)) <==> Grammar(t, strict, mustClose)
  {
    if AllOk(t, strict) && (mustClose ==> NoneOpen(t)) {
      ChecksImplyGrammar(t, strict, mustClose);
    }
    if Grammar(t, strict, mustClose) {
      GrammarImpliesChecks(t, strict, mustClose);
    }
  }

  // ---- the validator ----

  predicate HasResponseStart(t: Trace) {
    exists i :: 0 <= i < |t| && t[i].ResponseStart?
  }

  predicate HasMessageStart(t: Trace) {
    exists i :: 0 <= i < |t| && t[i].MessageStart?
  }

  predicate HasMessageStop(t: Trace) {
    exists i :: 0 <= i < |t| && t[i].MessageStop?
  }

  predicate HasResponseStop(t: Trace) {
    exists i :: 0 <= i < |t| && t[i].ResponseStop?
  }

  /** One event more, and what the history then contains. */
  lemma HistoryStep(t: Trace, e: StreamEvent)
    ensures HasResponseStart(t + [e]) <==> HasResponseStart(t) || e.ResponseStart?
    ensures HasMessageStart(t + [e]) <==> HasMessageStart(t) || e.MessageStart?
    ensures HasMessageStop(t + [e]) <==> HasMessageStop(t) || e.MessageStop?
    ensures HasResponseStop(t + [e]) <==> HasResponseStop(t) || e.ResponseStop?
  {
    var p := t + [e];
    assert p[|t|] == e && forall i :: 0 <= i < |t| ==> p[i] == t[i];
  }

  /** The ordering rules for the next event, in terms of what the history contains. */
  predicate MayFollow(t: Trace, e: StreamEvent, strict: StrictRules) {
    && (IsContent(e) ==> !HasMessageStop(t))
    && (e.ResponseStop? ==> HasMessageStop(t))
    && (strict.messageStartFirst && e.ContentBlockStart? ==> HasMessageStart(t))
    && (strict.singleStart && e.ResponseStart? ==> !HasResponseStart(t))
    && (strict.singleStart && e.MessageStart? ==> !HasMessageStart(t))
    && (strict.singleStart && e.MessageStop? ==> !HasMessageStop(t))
    && (strict.singleStart && e.ResponseStop? ==> !HasResponseStop(t))
    && (strict.responseStopLast && !e.ResponseStart? && !e.ResponseStop? ==> !HasResponseStop(t))
  }

  lemma OrderedIff(t: Trace, e: StreamEvent, strict: StrictRules)
    ensures Ordered(t + [e], |t|, strict) <==> MayFollow(t, e, strict)
  {
    var p := t + [e];
    assert p[|t|] == e && forall i :: 0 <= i < |t| ==> p[i] == t[i];
  }

  class ValidatorState {
    var seenResponseStart: bool
    var seenMessageStart: bool
    var seenMessageStop: bool
    var seenResponseStop: bool
    var openBlocks: map<nat, ContentBlockKind>
    var toolStopped: set<nat>
    var closedIndices: set<nat>
    var terminatedByError: bool

    /** The state reflects an error-free history. */
    ghost predicate Reflects(t: Trace)
      reads this
    {
      FlagsReflect(t) && BlocksReflect(t)
    }

    ghost predicate FlagsReflect(t: Trace)
      reads this`seenResponseStart, this`seenMessageStart, this`seenMessageStop, this`seenResponseStop
    {
      && seenResponseStart == HasResponseStart(t) && seenMessageStart == HasMessageStart(t)
      && seenMessageStop == HasMessageStop(t) && seenResponseStop == HasResponseStop(t)
    }

    ghost predicate BlocksReflect(t: Trace)
      reads this`openBlocks, this`toolStopped, this`closedIndices
    {
      forall x :: BlockReflects(BlockRun(Project(t, x)), x)
    }

    ghost predicate BlockReflects(b: Block, x: nat)
      reads this`openBlocks, this`toolStopped, this`closedIndices
    {
      && (x in openBlocks <==> b.Opened?)
      && (x in openBlocks ==> openBlocks[x] == b.kind)
      && (x in toolStopped <==> b.Opened? && b.toolStopped)
      && (x in closedIndices <==> b.Closed?)
      && !b.Broken?
    }

    constructor ()
      ensures Reflects([]) && !terminatedByError
    {
      seenResponseStart, seenMessageStart, seenMessageStop, seenResponseStop := false, false, false, false;
      openBlocks, toolStopped, closedIndices, terminatedByError := map[], {}, {}, false;
    }

    predicate PostMessageStop()
      reads this
    {
      seenMessageStop
    }

    predicate PostResponseStop(strict: StrictRules)
      reads this
    {
      strict.responseStopLast && seenResponseStop
    }

    /** A delta must land on an open block of its own kind. */
    predicate DeltaKindOk(index: nat, expected: ContentBlockKind)
      reads this
    {
      index in openBlocks && openBlocks[index] == expected
    }

    /** One iteration for an event other than `Error`: false is the panic. */
    method Observe(e: StreamEvent, strict: StrictRules, ghost t: Trace) returns (ok: bool)
      requires Reflects(t) && !e.Error?
      modifies this
      ensures ok <==> StepOk(t, e, strict)
      ensures ok ==> Reflects(t + [e])
      ensures terminatedByError == old(terminatedByError)
    {
      OrderedIff(t, e, strict);
      HistoryStep(t, e);
      if IsBlockEvent(e) {
        ok := ObserveBlockEvent(e, strict, t);
      } else {
        ok := ObserveBracket(e, strict, t);
        BlocksKept(t, e);
      }
    }

    /** The arms for events outside any block. */
    method ObserveBracket(e: StreamEvent, strict: StrictRules, ghost t: Trace) returns (ok: bool)
      requires FlagsReflect(t) && !e.Error? && !IsBlockEvent(e)
      modifies this`seenResponseStart, this`seenMessageStart, this`seenMessageStop, this`seenResponseStop
      ensures ok <==> MayFollow(t, e, strict)
      ensures ok ==> FlagsReflect(t + [e])
    {
      HistoryStep(t, e);
      match e {
        case ResponseStart(_) =>
          if seenResponseStart && strict.singleStart {
            return false;
          }
          seenResponseStart := true;
        case MessageStart(_) =>
          if PostMessageStop() || PostResponseStop(strict) || (seenMessageStart && strict.singleStart) {
            return false;
          }
          seenMessageStart := true;
        case MessageStop(_) =>
          if PostResponseStop(strict) || (seenMessageStop && strict.singleStart) {
            return false;
          }
          seenMessageStop := true;
        case ResponseStop(_) =>
          if !seenMessageStop || (seenResponseStop && strict.singleStart) {
            return false;
          }
          seenResponseStop := true;
        case _ =>
          if PostResponseStop(strict) {
            return false;
          }
      }
      return true;
    }

    /** The arms for block events. Every one of them starts with the two position checks. */
    method ObserveBlockEvent(e: StreamEvent, strict: StrictRules, ghost t: Trace) returns (ok: bool)
      requires Reflects(t) && IsBlockEvent(e)
      modifies this`openBlocks, this`toolStopped, this`closedIndices
      ensures ok <==> MayFollow(t, e, strict) && !BlockStep(BlockRun(Project(t, e.index)), e).Broken?
      ensures ok ==> BlocksReflect(t + [e])
    {
      assert BlockReflects(BlockRun(Project(t, e.index)), e.index);
      if PostMessageStop() || PostResponseStop(strict) {
        return false;
      }
      if e.ContentBlockStart? && strict.messageStartFirst && !seenMessageStart {
        return false;
      }
      ok := MoveBlock(e);
      if ok {
        BlocksMoved(t, e);
      }
    }

    lemma BlocksMoved(t: Trace, e: StreamEvent)
      requires IsBlockEvent(e) && BlockReflects(BlockStep(BlockRun(Project(t, e.index)), e), e.index)
      requires forall x :: x != e.index ==> BlockReflects(BlockRun(Project(t, x)), x)
      ensures BlocksReflect(t + [e])
    {
      forall x: nat
        ensures BlockReflects(BlockRun(Project(t + [e], x)), x)
      {
        ProjectSnoc(t, e, x);
      }
    }

    lemma BlocksKept(t: Trace, e: StreamEvent)
      requires !IsBlockEvent(e) && BlocksReflect(t)
      ensures BlocksReflect(t + [e])
    {
      forall x: nat
        ensures BlockReflects(BlockRun(Project(t + [e], x)), x)
      {
        ProjectSnoc(t, e, x);
        assert BlockReflects(BlockRun(Project(t, x)), x);
      }
    }

    /** What one block event does to its own block. */
    method MoveBlock(e: StreamEvent) returns (ok: bool)
      requires IsBlockEvent(e)
      modifies this`openBlocks, this`toolStopped, this`closedIndices
      ensures forall b :: old(BlockReflects(b, e.index)) ==>
                          (ok <==> !BlockStep(b, e).Broken?) && (ok ==> BlockReflects(BlockStep(b, e), e.index))
      ensures forall b, x :: x != e.index && old(BlockReflects(b, x)) ==> BlockReflects(b, x)
    {
      match e {
        case ContentBlockStart(index, kind) =>
          if index in openBlocks || index in closedIndices {
            return false;
          }
          openBlocks := openBlocks[index := kind];
        case ContentBlockStop(index) =>
          if index !in openBlocks {
            return false;
          }
          var kind := openBlocks[index];
          openBlocks := openBlocks - {index};
          if kind == ToolCall && index !in toolStopped {
            return false;
          }
          toolStopped := toolStopped - {index};
          closedIndices := closedIndices + {index};
        case TextDelta(index, _) =>
          return DeltaKindOk(index, Text);
        case ReasoningDelta(index, _) =>
          return DeltaKindOk(index, Reasoning);
        case ToolCallStart(index, _, _) =>
          return DeltaKindOk(index, ToolCall);
        case ToolCallArgumentsDelta(index, _) =>
          return DeltaKindOk(index, ToolCall);
        case ToolCallStop(index) =>
          if !DeltaKindOk(index, ToolCall) {
            return false;
          }
          toolStopped := toolStopped + {index};
      }
      return true;
    }

    /** The closing check: no block is left open. */
    lemma ClosedIff(t: Trace)
      requires Reflects(t)
      ensures openBlocks.Keys == {} <==> NoneOpen(t)
    {
      forall x: nat
        ensures x in openBlocks <==> BlockRun(Project(t, x)).Opened?
      {
        assert BlockReflects(BlockRun(Project(t, x)), x);
      }
      if openBlocks.Keys != {} {
        var x :| x in openBlocks.Keys;
        assert BlockRun(Project(t, x)).Opened?;
      }
    }
  }

  /** The one-pass validator accepts exactly the traces the grammar describes. */
  method Validate(events: Trace, strict: StrictRules) returns (ok: bool)
    ensures ok <==> Accepts(events, strict)
  {
    var state := new ValidatorState();
    ghost var cut := FirstError(events);
    for i := 0 to |events|
      invariant fresh(state)
      invariant i <= cut + 1
      invariant state.terminatedByError <==> i == cut + 1
      invariant i <= cut ==> state.Reflects(events[..i]) && AllOk(events[..i], strict)
      invariant i == cut + 1 ==> state.Reflects(events[..cut]) && AllOk(events[..cut], strict)
    {
      if state.terminatedByError {
        GrammarIff(events[..cut], strict, false);
        return true;
      }
      if events[i].Error? {
        state.terminatedByError := true;
        continue;
      }
      assert events[..i + 1] == events[..i] + [events[i]];
      var stepOk := state.Observe(events[i], strict, events[..i]);
      if !stepOk {
        assert !Accepts(events, strict) by {
          if Accepts(events, strict) {
            AcceptedStep(events, i, strict);
          }
        }
        return false;
      }
      AllOkSnoc(events, i, strict);
    }
    GrammarIff(events[..cut], strict, true);
    state.ClosedIff(events[..cut]);
    return state.openBlocks.Keys == {};
  }

  lemma AllOkSnoc(t: Trace, i: nat, strict: StrictRules)
    requires i < |t| && AllOk(t[..i], strict) && StepOk(t[..i], t[i], strict)
    ensures AllOk(t[..i + 1], strict)
  {
    var p := t[..i + 1];
    forall j | 0 <= j < |p|
      ensures StepOk(p[..j], p[j], strict)
    {
      assert p[..j] == t[..j] && p[j] == t[j];
      if j < i {
        assert t[..i][..j] == t[..j] && StepOk(t[..i][..j], t[..i][j], strict);
      }
    }
  }

  lemma AcceptedStep(t: Trace, i: nat, strict: StrictRules)
    requires i < FirstError(t) && Accepts(t, strict)
    ensures StepOk(t[..i], t[i], strict)
  {
    var p := t[..FirstError(t)];
    GrammarIff(p, strict, FirstError(t) + 1 >= |t|);
    assert p[..i] == t[..i] && p[i] == t[i];
    assert StepOk(p[..i], p[i], strict);
  }

  // ---- what may follow ResponseStop ----

  /**
   The documentation says that nothing may follow ResponseStop. Among the Error-free traces the
   default rules accept, that is so exactly when no ResponseStart comes after a ResponseStop.
   */
  lemma NothingAfterResponseStopIff(t: Trace)
    requires Accepts(t, DEFAULT_RULES) && FirstError(t) == |t|
    ensures (forall i :: 0 <= i < |t| && t[i].ResponseStop? ==> i == |t| - 1) <==>
            (forall i, j :: 0 <= i < j < |t| && t[i].ResponseStop? ==> !t[j].ResponseStart?)
  {
    assert t[..|t|] == t;
    if forall i, j :: 0 <= i < j < |t| && t[i].ResponseStop? ==> !t[j].ResponseStart? {
      forall i | 0 <= i < |t| && t[i].ResponseStop?
        ensures i == |t| - 1
      {
        assert Ordered(t, |t| - 1, DEFAULT_RULES);
      }
    }
  }

  const LATE_START := [MessageStart(""), MessageStop(""), ResponseStop(""), ResponseStart("")]

  /** An accepted trace with an event after ResponseStop: a first ResponseStart is not checked there. */
  lemma LateResponseStartAccepted()
    ensures Accepts(LATE_START, DEFAULT_RULES) && LATE_START[2].ResponseStop? && LATE_START[3].ResponseStart?
  {
    var t := LATE_START;
    assert FirstError(t) == 4;
    assert t[..4] == t;
    assert t[1].MessageStop?;
    forall x: nat
      ensures Project(t, x) == []
    {
      NoBlockEvents(t, x);
    }
  }

  lemma {:induction false} NoBlockEvents(t: Trace, x: nat)
    requires forall i :: 0 <= i < |t| ==> !IsBlockEvent(t[i])
    ensures Project(t, x) == []
  {
    if t != [] {
      NoBlockEvents(t[..|t| - 1], x);
    }
  }

  // ---- how a stream must open ----

  /**
   The opening the canonical contract asks for: exactly one ResponseStart, a MessageStart after it,
   and no block event before that MessageStart.
   */
  ghost predicate OpensAsDocumented(t: Trace) {
    exists r, m ::
      && 0 <= r < m < |t| && t[r].ResponseStart? && t[m].MessageStart?
      && (forall j :: 0 <= j < |t| && t[j].ResponseStart? ==> j == r)
      && (forall b :: 0 <= b < m ==> !IsBlockEvent(t[b]))
  }

  ghost predicate StartsInOrder(t: Trace) {
    exists r, m :: 0 <= r < m < |t| && t[r].ResponseStart? && t[m].MessageStart?
  }

  lemma {:induction false} ProjectedFrom(t: Trace, x: nat, k: nat) returns (i: nat)
    requires k < |Project(t, x)|
    ensures i < |t| && t[i] == Project(t, x)[k]
  {
    var init := t[..|t| - 1];
    if k < |Project(init, x)| {
      i := ProjectedFrom(init, x, k);
    } else {
      i := |t| - 1;
    }
  }

  /** A block event that does not break its block is a start, or comes after one. */
  lemma BlockNeedsStart(t: Trace, b: nat) returns (s: nat)
    requires b < |t| && IsBlockEvent(t[b]) && BlockOkAt(t, b)
    ensures s <= b && t[s].ContentBlockStart?
  {
    if t[b].ContentBlockStart? {
      s := b;
    } else {
      AutomatonMeaning(Project(t[..b], t[b].index));
      s := ProjectedFrom(t[..b], t[b].index, 0);
    }
  }

  /** Under the default rules no block event precedes the one MessageStart. */
  lemma NoBlockBeforeMessage(t: Trace, m: nat, b: nat)
    requires Grammar(t, DEFAULT_RULES, true) && b < m < |t| && t[m].MessageStart?
    ensures !IsBlockEvent(t[b])
  {
    if IsBlockEvent(t[b]) {
      GrammarImpliesChecks(t, DEFAULT_RULES, true);
      StepOkIff(t, b, DEFAULT_RULES);
      var s := BlockNeedsStart(t, b);
      assert Ordered(t, s, DEFAULT_RULES) && Ordered(t, m, DEFAULT_RULES);
      var i :| 0 <= i < s && t[i].MessageStart?;
      assert SameBracket(t[i], t[m]);
      assert false;
    }
  }

  /**
   The validator does not ask for the two starts. Among the Error-free traces it accepts, the documented
   opening is there exactly when a ResponseStart comes somewhere before a MessageStart.
   */
  lemma OpensAsDocumentedIff(t: Trace)
    requires Accepts(t, DEFAULT_RULES) && FirstError(t) == |t|
    ensures OpensAsDocumented(t) <==> StartsInOrder(t)
  {
    assert t[..|t|] == t;
    if StartsInOrder(t) {
      var r, m :| 0 <= r < m < |t| && t[r].ResponseStart? && t[m].MessageStart?;
      forall j | 0 <= j < |t| && t[j].ResponseStart?
        ensures j == r
      {
        assert Ordered(t, j, DEFAULT_RULES) && Ordered(t, r, DEFAULT_RULES);
        assert SameBracket(t[j], t[r]);
      }
      forall b | 0 <= b < m
        ensures !IsBlockEvent(t[b])
      {
        NoBlockBeforeMessage(t, m, b);
      }
    }
  }

  /** Accepted traces that do not open as documented: the empty one, and a message with no ResponseStart. */
  lemma NoStartAccepted()
    ensures Accepts([], DEFAULT_RULES) && !OpensAsDocumented([])
    ensures var t := [MessageStart(""), MessageStop("")];
            Accepts(t, DEFAULT_RULES) && !OpensAsDocumented(t)
  {
    var t := [MessageStart(""), MessageStop("")];
    assert FirstError([]) == 0 && FirstError(t) == 2;
    assert t[..2] == t;
    forall x: nat
      ensures Project(t, x) == []
    {
      NoBlockEvents(t, x);
    }
  }

  // ---- what acceptance means for one event ----

  /** Event i starts or stops block x. */
  predicate Bounds(t: Trace, x: nat, i: nat)
    requires i < |t|
  {
    (t[i].ContentBlockStart? || t[i].ContentBlockStop?) && t[i].index == x
  }

  /** Block x has been open since event s, and events s to n neither start nor stop it again. */
  predicate OpenSince(t: Trace, x: nat, s: nat, n: nat)
    requires n <= |t|
  {
    s < n && t[s].ContentBlockStart? && t[s].index == x && forall i :: s < i < n ==> !Bounds(t, x, i)
  }

  predicate ToolStoppedBetween(t: Trace, x: nat, s: nat, n: nat)
    requires n <= |t|
  {
    exists i :: s < i < n && t[i].ToolCallStop? && t[i].index == x
  }

  /** `b(m)` is the state of block x after the first m events. */
  ghost predicate Tracks(t: Trace, x: nat, b: nat -> Block, n: nat)
    requires n <= |t|
  {
    b(0) == Untouched &&
    forall m: nat :: m < n ==> b(m + 1) == if IsBlockEvent(t[m]) && t[m].index == x then BlockStep(b(m), t[m]) else b(m)
  }

  lemma {:induction false} StartOf(t: Trace, x: nat, b: nat -> Block, n: nat) returns (s: nat)
    requires n <= |t| && Tracks(t, x, b, n) && b(n).Opened?
    ensures OpenSince(t, x, s, n) && t[s].kind == b(n).kind
    ensures ToolStoppedBetween(t, x, s, n) <==> b(n).toolStopped
  {
    assert n > 0;
    var m := n - 1;
    assert b(m + 1) == if IsBlockEvent(t[m]) && t[m].index == x then BlockStep(b(m), t[m]) else b(m);
    if t[m].ContentBlockStart? && t[m].index == x {
      s := m;
    } else {
      s := StartOf(t, x, b, m);
      OneLater(t, x, s, m);
    }
  }

  lemma FindStart(t: Trace, x: nat, n: nat) returns (s: nat)
    requires n <= |t| && BlockRun(Project(t[..n], x)).Opened?
    ensures OpenSince(t, x, s, n) && t[s].kind == BlockRun(Project(t[..n], x)).kind
    ensures ToolStoppedBetween(t, x, s, n) <==> BlockRun(Project(t[..n], x)).toolStopped
  {
    var b := (m: nat) => if m <= |t| then BlockRun(Project(t[..m], x)) else Untouched;
    assert t[..0] == [];
    forall m: nat | m < n
      ensures b(m + 1) == if IsBlockEvent(t[m]) && t[m].index == x then BlockStep(b(m), t[m]) else b(m)
    {
      ProjectStep(t, x, m);
    }
    s := StartOf(t, x, b, n);
  }

  lemma ProjectStep(t: Trace, x: nat, n: nat)
    requires n < |t|
    ensures BlockRun(Project(t[..n + 1], x)) ==
            if IsBlockEvent(t[n]) && t[n].index == x then BlockStep(BlockRun(Project(t[..n], x)), t[n])
            else BlockRun(Project(t[..n], x))
  {
    TakeSnoc(t, n);
    ProjectSnoc(t[..n], t[n], x);
  }

  lemma OneLater(t: Trace, x: nat, s: nat, n: nat)
    requires n < |t| && OpenSince(t, x, s, n)
    ensures !Bounds(t, x, n) ==> OpenSince(t, x, s, n + 1)
    ensures ToolStoppedBetween(t, x, s, n + 1) <==>
            ToolStoppedBetween(t, x, s, n) || (t[n].ToolCallStop? && t[n].index == x)
  {
  }

  lemma {:induction false} NoneBefore(t: Trace, x: nat, n: nat, i: nat)
    requires i < n <= |t| && Project(t[..n], x) == []
    ensures !(IsBlockEvent(t[i]) && t[i].index == x)
  {
    assert t[..n] == t[..n - 1] + [t[n - 1]];
    ProjectSnoc(t[..n - 1], t[n - 1], x);
    if i < n - 1 {
      NoneBefore(t, x, n - 1, i);
    }
  }

  /**
   In a trace the validator accepts up to its first Error, whatever the toggles: a block start is the
   block's first event; every other block event comes while its block is open, is of the kind the block
   was opened with, and a tool block's stop comes after its ToolCallStop.
   */
  lemma AcceptedBlockEvent(t: Trace, strict: StrictRules, mustClose: bool, j: nat)
    requires Grammar(t, strict, mustClose) && j < |t| && IsBlockEvent(t[j])
    ensures t[j].ContentBlockStart? ==> forall i :: 0 <= i < j ==> !(IsBlockEvent(t[i]) && t[i].index == t[j].index)
    ensures !t[j].ContentBlockStart? ==>
            exists s: nat :: && OpenSince(t, t[j].index, s, j)
                        && (t[j].TextDelta? ==> t[s].kind == Text)
                        && (t[j].ReasoningDelta? ==> t[s].kind == Reasoning)
                        && (t[j].ToolCallStart? || t[j].ToolCallArgumentsDelta? || t[j].ToolCallStop? ==> t[s].kind == ToolCall)
                        && (t[j].ContentBlockStop? && t[s].kind == ToolCall ==> ToolStoppedBetween(t, t[j].index, s, j))
  {
    var x := t[j].index;
    GrammarImpliesChecks(t, strict, mustClose);
    StepOkIff(t, j, strict);
    assert BlockOkAt(t, j);
    if t[j].ContentBlockStart? {
      AutomatonMeaning(Project(t[..j], x));
      forall i | 0 <= i < j
        ensures !(IsBlockEvent(t[i]) && t[i].index == x)
      {
        NoneBefore(t, x, j, i);
      }
    } else {
      var s := FindStart(t, x, j);
    }
  }

  /** The ordering rules of an accepted trace under the default rules, pair by pair. */
  lemma AcceptedOrder(t: Trace, mustClose: bool, i: nat, j: nat)
    requires Grammar(t, DEFAULT_RULES, mustClose) && i < j < |t|
    ensures t[i].MessageStop? ==>
            t[j].ResponseStart? || t[j].ResponseStop? || t[j].UsageDelta? || t[j].RawProviderEvent? || t[j].Error?
    ensures t[i].ResponseStop? ==> t[j].ResponseStart? && forall k :: 0 <= k < j ==> !t[k].ResponseStart?
    ensures !(t[i].ResponseStart? && t[j].ResponseStart?) && !(t[i].MessageStart? && t[j].MessageStart?)
    ensures !(t[i].MessageStop? && t[j].MessageStop?) && !(t[i].ResponseStop? && t[j].ResponseStop?)
    ensures t[j].ResponseStop? ==> exists k :: 0 <= k < j && t[k].MessageStop?
    ensures t[j].ContentBlockStart? ==> exists k :: 0 <= k < j && t[k].MessageStart?
  {
    assert Ordered(t, j, DEFAULT_RULES);
    assert !SameBracket(t[i], t[j]);
    forall k | 0 <= k < j && t[j].ResponseStart?
      ensures !t[k].ResponseStart?
    {
      assert !SameBracket(t[k], t[j]);
    }
  }
}

/**
 Double-checked creation under concurrency. A thread looks a key up under the read lock,
 and on a miss comes back under the write lock to insert unless somebody else has; only then
 does it lock the breaker it got and act on it. Any thread may run between those steps.
 */
module GetOrCreate {
  import opened Wrappers
  import opened CircuitBreaker

  datatype Operation = Ask(policy: BreakerPolicy) | Note(ok: bool, policy: BreakerPolicy)

  function Apply(b: Breaker, op: Operation, now: nat): Breaker {
    match op
    case Ask(p) => AfterDecision(b, now, p)
    case Note(ok, p) => AfterRecord(b, ok, now, p)
  }

  /** Where a thread is in a call. */
  datatype Thread =
    | Idle
    | Looking(key: Key, op: Operation)
    | Missed(key: Key, op: Operation)
    | Got(key: Key, op: Operation, cell: nat)

  datatype Act = Act(key: Key, op: Operation, at: nat)

  /** `returned` and `acts` are histories: what each `get_or_create` call returned, and each operation as it took effect. */
  datatype Shared = Shared(
    entries: map<Key, nat>,
    objects: seq<Breaker>,
    threads: map<nat, Thread>,
    returned: seq<(Key, nat)>,
    acts: seq<Act>)

  const START := Shared(map[], [], map[], [], [])

  datatype Move = Call(key: Key, op: Operation) | Lookup | Insert | Perform(now: nat)

  function ThreadOf(s: Shared, t: nat): Thread {
    if t in s.threads then s.threads[t] else Idle
  }

  predicate Enabled(s: Shared, t: nat, m: Move) {
    match m
    case Call(_, _) => ThreadOf(s, t).Idle?
    case Lookup => ThreadOf(s, t).Looking?
    case Insert => ThreadOf(s, t).Missed?
    case Perform(_) => ThreadOf(s, t).Got? && ThreadOf(s, t).cell < |s.objects|
  }

  function Return(s: Shared, t: nat, cell: nat): Shared
    requires ThreadOf(s, t).Looking? || ThreadOf(s, t).Missed?
  {
    var th := ThreadOf(s, t);
    s.(threads := s.threads[t := Got(th.key, th.op, cell)], returned := s.returned + [(th.key, cell)])
  }

  function After(s: Shared, t: nat, m: Move): Shared
    requires Enabled(s, t, m)
  {
    var th := ThreadOf(s, t);
    match m
    case Call(k, op) => s.(threads := s.threads[t := Looking(k, op)])
    case Lookup =>
      if th.key in s.entries then Return(s, t, s.entries[th.key])
      else s.(threads := s.threads[t := Missed(th.key, th.op)])
    case Insert =>
      if th.key in s.entries then Return(s, t, s.entries[th.key])
      else
        var n := |s.objects|;
        Return(s.(entries := s.entries[th.key := n], objects := s.objects + [NEW_BREAKER]), t, n)
    case Perform(now) =>
      s.(objects := s.objects[th.cell := Apply(s.objects[th.cell], th.op, now)],
         threads := s.threads[t := Idle],
         acts := s.acts + [Act(th.key, th.op, now)])
  }

  /** The sequential meaning of a history: one breaker per key, operations in the order they took effect. */
  function Sequential(acts: seq<Act>, k: Key): Breaker {
    if acts == [] then NEW_BREAKER
    else
      var a := acts[|acts| - 1];
      var b := Sequential(acts[..|acts| - 1], k);
      if a.key == k then Apply(b, a.op, a.at) else b
  }

  predicate Bound(s: Shared, k: Key, o: nat) {
    k in s.entries && s.entries[k] == o
  }

  ghost predicate Inv(s: Shared) {
    && (forall k :: k in s.entries ==> s.entries[k] < |s.objects|)
    && (forall k, k' :: k in s.entries && k' in s.entries && s.entries[k] == s.entries[k'] ==> k == k')
    && (forall t :: ThreadOf(s, t).Got? ==> Bound(s, ThreadOf(s, t).key, ThreadOf(s, t).cell))
    && (forall i :: 0 <= i < |s.returned| ==> Bound(s, s.returned[i].0, s.returned[i].1))
    && (forall k :: Sequential(s.acts, k) == if k in s.entries then s.objects[s.entries[k]] else NEW_BREAKER)
  }

  lemma StepKeepsInv(s: Shared, t: nat, m: Move)
    requires Inv(s) && Enabled(s, t, m)
    ensures Inv(After(s, t, m))
    ensures forall k :: k in s.entries ==> Bound(After(s, t, m), k, s.entries[k])
  {
    var s' := After(s, t, m);
    if m.Perform? {
      PerformKeepsInv(s, t, m.now);
    } else if m.Insert? && ThreadOf(s, t).key !in s.entries {
      InsertKeepsInv(s, t);
    } else {
      assert forall u :: u != t ==> ThreadOf(s', u) == ThreadOf(s, u);
    }
  }

  lemma InsertKeepsInv(s: Shared, t: nat)
    requires Inv(s) && Enabled(s, t, Insert) && ThreadOf(s, t).key !in s.entries
    ensures Inv(After(s, t, Insert))
    ensures forall k :: k in s.entries ==> Bound(After(s, t, Insert), k, s.entries[k])
  {
    var s' := After(s, t, Insert);
    assert s'.entries == s.entries[ThreadOf(s, t).key := |s.objects|] && s'.objects == s.objects + [NEW_BREAKER];
    forall u | ThreadOf(s', u).Got?
      ensures Bound(s', ThreadOf(s', u).key, ThreadOf(s', u).cell)
    {
      if u != t {
        assert ThreadOf(s', u) == ThreadOf(s, u);
      }
    }
    forall i | 0 <= i < |s'.returned|
      ensures Bound(s', s'.returned[i].0, s'.returned[i].1)
    {
      if i < |s.returned| {
        assert Bound(s, s.returned[i].0, s.returned[i].1);
      }
    }
  }

  lemma PerformKeepsInv(s: Shared, t: nat, now: nat)
    requires Inv(s) && Enabled(s, t, Perform(now))
    ensures Inv(After(s, t, Perform(now)))
    ensures After(s, t, Perform(now)).entries == s.entries
  {
    var s' := After(s, t, Perform(now));
    var th := ThreadOf(s, t);
    assert s'.acts[..|s.acts|] == s.acts;
    assert Bound(s, th.key, th.cell);
    assert forall u :: u != t ==> ThreadOf(s', u) == ThreadOf(s, u);
    forall i | 0 <= i < |s'.returned|
      ensures Bound(s', s'.returned[i].0, s'.returned[i].1)
    {
      assert Bound(s, s.returned[i].0, s.returned[i].1);
    }
  }

  type Schedule = seq<(nat, Move)>

  function Reached(schedule: Schedule): Option<Shared> {
    if schedule == [] then Some(START)
    else
      var (t, m) := schedule[|schedule| - 1];
      match Reached(schedule[..|schedule| - 1])
      case Some(s) => if Enabled(s, t, m) then Some(After(s, t, m)) else None
      case None => None
  }

  lemma {:induction false} ReachedInv(schedule: Schedule)
    requires Reached(schedule).Some?
    ensures Inv(Reached(schedule).value)
  {
    if schedule != [] {
      var (t, m) := schedule[|schedule| - 1];
      ReachedInv(schedule[..|schedule| - 1]);
      StepKeepsInv(Reached(schedule[..|schedule| - 1]).value, t, m);
    }
  }

  /** Over a whole run, two calls return the same object exactly if they name the same key. */
  lemma SameKeySameObject(schedule: Schedule, i: nat, j: nat)
    requires Reached(schedule).Some?
    requires i < |Reached(schedule).value.returned| && j < |Reached(schedule).value.returned|
    ensures var r := Reached(schedule).value.returned;
            r[i].0 == r[j].0 <==> r[i].1 == r[j].1
  {
    var s := Reached(schedule).value;
    ReachedInv(schedule);
    assert Bound(s, s.returned[i].0, s.returned[i].1) && Bound(s, s.returned[j].0, s.returned[j].1);
  }

  /**
   Whatever the schedule, each key's breaker is the one that running its operations one at a time,
   in the order they took effect, would give: the fine-grained registry refines an atomic one.
   */
  lemma Linearizes(schedule: Schedule, k: Key)
    requires Reached(schedule).Some?
    ensures var s := Reached(schedule).value;
            && (k in s.entries ==> s.entries[k] < |s.objects| && s.objects[s.entries[k]] == Sequential(s.acts, k))
            && (k !in s.entries ==> Sequential(s.acts, k) == NEW_BREAKER)
  {
    ReachedInv(schedule);
  }

  /** Along a run an entry, once present, is never replaced. */
  lemma {:induction false} EntriesAreStable(schedule: Schedule, n: nat, k: Key)
    requires Reached(schedule).Some? && n <= |schedule|
    ensures Reached(schedule[..n]).Some?
    ensures k in Reached(schedule[..n]).value.entries ==>
            Bound(Reached(schedule).value, k, Reached(schedule[..n]).value.entries[k])
    decreases |schedule|
  {
    if n == |schedule| {
      assert schedule[..n] == schedule;
    } else {
      var init := schedule[..|schedule| - 1];
      var (t, m) := schedule[|schedule| - 1];
      assert init[..n] == schedule[..n];
      EntriesAreStable(init, n, k);
      ReachedInv(init);
      StepKeepsInv(Reached(init).value, t, m);
    }
  }
}

/**
 The pending counter behind fire-and-forget hooks. A spawn counts first and joins the task set
 afterwards; a finishing task decrements under the lock; a flush takes the set, waits as long as
 it likes, then snapshots and clears the counter and aborts what is left. These steps interleave
 freely, except that spawning and flushing do not overlap.
 */
module Supervisor {
  import opened Wrappers

  datatype Stage = Counted | Running | Finished | Aborted

  datatype Task = Task(name: string, stage: Stage)

  datatype Flush = NotStarted | Draining | Reported(dropped: map<string, nat>)

  datatype State = State(pending: map<string, nat>, tasks: seq<Task>, flush: Flush)

  const START := State(map[], [], NotStarted)

  datatype Move = SpawnCount(name: string) | SpawnJoin(t: nat) | Complete(t: nat) | TakeSet | Report | Abort(t: nat)

  predicate Enabled(s: State, m: Move) {
    match m
    case SpawnCount(_) => s.flush.NotStarted?
    case SpawnJoin(t) => t < |s.tasks| && s.tasks[t].stage.Counted?
    case Complete(t) => t < |s.tasks| && s.tasks[t].stage.Running?
    case TakeSet => s.flush.NotStarted? && forall t :: 0 <= t < |s.tasks| ==> !s.tasks[t].stage.Counted?
    case Report => s.flush.Draining?
    case Abort(t) => s.flush.Reported? && t < |s.tasks| && s.tasks[t].stage.Running?
  }

  /** `entry(name).or_insert(0) += 1`. */
  function Increment(pending: map<string, nat>, name: string): map<string, nat> {
    pending[name := (if name in pending then pending[name] else 0) + 1]
  }

  /** The decrement at the end of a task: saturating, and removing an entry that reaches zero. */
  function Decrement(pending: map<string, nat>, name: string): map<string, nat> {
    if name !in pending then pending
    else
      var left := if pending[name] == 0 then 0 else pending[name] - 1;
      if left == 0 then pending - {name} else pending[name := left]
  }

  function WithStage(s: State, t: nat, stage: Stage): State
    requires t < |s.tasks|
  {
    s.(tasks := s.tasks[t := s.tasks[t].(stage := stage)])
  }

  function After(s: State, m: Move): State
    requires Enabled(s, m)
  {
    match m
    case SpawnCount(name) => s.(pending := Increment(s.pending, name), tasks := s.tasks + [Task(name, Counted)])
    case SpawnJoin(t) => WithStage(s, t, Running)
    case Complete(t) => WithStage(s, t, Finished).(pending := Decrement(s.pending, s.tasks[t].name))
    case TakeSet => s.(flush := Draining)
    case Report => s.(pending := map[], flush := Reported(s.pending))
    case Abort(t) => WithStage(s, t, Aborted)
  }

  /** The tasks of one name that have been counted and have not decremented. */
  function Undone(tasks: seq<Task>, name: string): nat {
    if tasks == [] then 0
    else
      var last := tasks[|tasks| - 1];
      Undone(tasks[..|tasks| - 1], name) + (if last.name == name && !last.stage.Finished? then 1 else 0)
  }

  lemma {:induction false} UndoneUpdate(tasks: seq<Task>, t: nat, stage: Stage, name: string)
    requires t < |tasks|
    ensures var u := tasks[t := tasks[t].(stage := stage)];
            Undone(u, name) + (if tasks[t].name == name && !tasks[t].stage.Finished? then 1 else 0) ==
            Undone(tasks, name) + (if tasks[t].name == name && !stage.Finished? then 1 else 0)
    decreases |tasks|
  {
    var u := tasks[t := tasks[t].(stage := stage)];
    var n := |tasks| - 1;
    if t < n {
      UndoneUpdate(tasks[..n], t, stage, name);
      assert u[..n] == tasks[..n][t := tasks[t].(stage := stage)];
    } else {
      assert u[..n] == tasks[..n];
    }
  }

  lemma {:induction false} UndonePositive(tasks: seq<Task>, name: string)
    ensures Undone(tasks, name) > 0 <==> exists i :: 0 <= i < |tasks| && tasks[i].name == name && !tasks[i].stage.Finished?
  {
    if tasks != [] {
      var n := |tasks| - 1;
      UndonePositive(tasks[..n], name);
      assert forall i :: 0 <= i < n ==> tasks[..n][i] == tasks[i];
    }
  }

  /** The positions of the tasks of one name that have not finished. */
  function UndonePositions(tasks: seq<Task>, name: string): set<int> {
    set i | 0 <= i < |tasks| && tasks[i].name == name && tasks[i].stage != Finished
  }

  lemma {:induction false} UndoneCount(tasks: seq<Task>, name: string)
    ensures Undone(tasks, name) == |UndonePositions(tasks, name)|
  {
    if tasks != [] {
      var n := |tasks| - 1;
      UndoneCount(tasks[..n], name);
      OneMoreTask(tasks, name, n);
    }
  }

  lemma OneMoreTask(tasks: seq<Task>, name: string, n: nat)
    requires |tasks| == n + 1
    ensures |UndonePositions(tasks, name)| ==
            |UndonePositions(tasks[..n], name)| + (if tasks[n].name == name && tasks[n].stage != Finished then 1 else 0)
  {
    var before := UndonePositions(tasks[..n], name);
    assert UndonePositions(tasks, name) ==
           if tasks[n].name == name && tasks[n].stage != Finished then before + {n} else before;
  }

  /** The counter is exact: an entry for each name with undone tasks, holding their number, and no other entry. */
  ghost predicate Exact(pending: map<string, nat>, tasks: seq<Task>) {
    forall name :: if name in pending then pending[name] == Undone(tasks, name) > 0 else Undone(tasks, name) == 0
  }

  ghost predicate Inv(s: State) {
    && (!s.flush.Reported? ==> Exact(s.pending, s.tasks))
    && (!s.flush.Reported? ==> forall t :: 0 <= t < |s.tasks| ==> !s.tasks[t].stage.Aborted?)
    && (!s.flush.NotStarted? ==> forall t :: 0 <= t < |s.tasks| ==> !s.tasks[t].stage.Counted?)
    && (s.flush.Reported? ==> s.pending == map[])
  }

  lemma SpawnKeepsExact(s: State, name: string)
    requires Exact(s.pending, s.tasks)
    ensures Exact(Increment(s.pending, name), s.tasks + [Task(name, Counted)])
  {
    assert (s.tasks + [Task(name, Counted)])[..|s.tasks|] == s.tasks;
  }

  lemma CompleteKeepsExact(s: State, t: nat)
    requires Exact(s.pending, s.tasks) && t < |s.tasks| && s.tasks[t].stage.Running?
    ensures Exact(Decrement(s.pending, s.tasks[t].name), WithStage(s, t, Finished).tasks)
  {
    forall name
      ensures Undone(WithStage(s, t, Finished).tasks, name) + (if s.tasks[t].name == name then 1 else 0) ==
              Undone(s.tasks, name)
    {
      UndoneUpdate(s.tasks, t, Finished, name);
    }
  }

  lemma RestageKeepsExact(s: State, t: nat, stage: Stage)
    requires Exact(s.pending, s.tasks) && t < |s.tasks| && !s.tasks[t].stage.Finished? && !stage.Finished?
    ensures Exact(s.pending, WithStage(s, t, stage).tasks)
  {
    forall name
      ensures Undone(WithStage(s, t, stage).tasks, name) == Undone(s.tasks, name)
    {
      UndoneUpdate(s.tasks, t, stage, name);
    }
  }

  lemma StepKeepsInv(s: State, m: Move)
    requires Inv(s) && Enabled(s, m)
    ensures Inv(After(s, m))
  {
    if !s.flush.Reported? {
      match m
      case SpawnCount(name) => SpawnKeepsExact(s, name);
      case Complete(t) => CompleteKeepsExact(s, t);
      case SpawnJoin(t) => RestageKeepsExact(s, t, Running);
      case _ =>
    }
  }

  function Reached(moves: seq<Move>): Option<State> {
    if moves == [] then Some(START)
    else
      match Reached(moves[..|moves| - 1])
      case Some(s) => if Enabled(s, moves[|moves| - 1]) then Some(After(s, moves[|moves| - 1])) else None
      case None => None
  }

  lemma {:induction false} ReachedInv(moves: seq<Move>)
    requires Reached(moves).Some?
    ensures Inv(Reached(moves).value)
  {
    if moves != [] {
      ReachedInv(moves[..|moves| - 1]);
      StepKeepsInv(Reached(moves[..|moves| - 1]).value, moves[|moves| - 1]);
    }
  }

  /**
   Until the snapshot, whatever the interleaving, the counter of a name is the number of its tasks
   that have been spawned and have not decremented, and no entry is zero.
   */
  lemma PendingIsExact(moves: seq<Move>, name: string)
    requires Reached(moves).Some? && !Reached(moves).value.flush.Reported?
    ensures var s := Reached(moves).value;
            if name in s.pending then s.pending[name] == Undone(s.tasks, name) > 0 else Undone(s.tasks, name) == 0
  {
    ReachedInv(moves);
  }

  /** The saturating subtraction never saturates: a task that decrements before the snapshot finds at least one. */
  lemma NeverSaturates(moves: seq<Move>, t: nat)
    requires Reached(moves).Some? && Enabled(Reached(moves).value, Complete(t)) && !Reached(moves).value.flush.Reported?
    ensures var s := Reached(moves).value;
            s.tasks[t].name in s.pending && s.pending[s.tasks[t].name] >= 1
  {
    var s := Reached(moves).value;
    ReachedInv(moves);
    UndonePositive(s.tasks, s.tasks[t].name);
  }

  /** A report made in state s names exactly the tasks that have not decremented, and is empty iff all have. */
  lemma ReportNamesTheDropped(moves: seq<Move>, name: string)
    requires Reached(moves).Some? && Reached(moves).value.flush.Draining?
    ensures var s := Reached(moves).value;
            var dropped := After(s, Report).flush.dropped;
            && (if name in dropped then dropped[name] == Undone(s.tasks, name) > 0 else Undone(s.tasks, name) == 0)
            && (dropped == map[] <==> forall t :: 0 <= t < |s.tasks| ==> s.tasks[t].stage.Finished?)
  {
    var s := Reached(moves).value;
    ReachedInv(moves);
    if s.pending == map[] {
      forall t | 0 <= t < |s.tasks|
        ensures s.tasks[t].stage.Finished?
      {
        UndonePositive(s.tasks, s.tasks[t].name);
      }
    } else {
      var n :| n in s.pending;
      UndonePositive(s.tasks, n);
    }
  }

  /** After the snapshot the counter stays empty, though surviving tasks may still run their decrement. */
  lemma {:induction false} ClearedStaysClear(moves: seq<Move>)
    requires Reached(moves).Some? && Reached(moves).value.flush.Reported?
    ensures Reached(moves).value.pending == map[]
  {
    ReachedInv(moves);
  }
}

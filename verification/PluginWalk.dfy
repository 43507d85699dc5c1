/**
 The request-hook walk. Each plugin gets a clone of the request as the last accepted plugin left
 it; its output replaces the request only if the call succeeded and no protected field moved.
 `behave(i)` is whatever the i-th entry does on this walk, so state inside or shared between
 plugins is covered.
 */
module PluginWalk {
  import opened Wrappers
  import opened PluginInvoke

  /** `body` stands for every field a plugin may change. */
  datatype Request = Request(id: string, frontend: string, model: string, stream: bool, body: string)

  datatype PluginEntry = PluginEntry(name: string, enabled: bool, onError: OnError)

  type Behaviour = nat -> (Request -> HookResult<Request>)

  /** The first protected field that differs. */
  function ChangedField(before: Request, after: Request): Option<string> {
    if before.id != after.id then Some("id")
    else if before.frontend != after.frontend then Some("frontend")
    else if before.model != after.model then Some("model")
    else if before.stream != after.stream then Some("stream")
    else None
  }

  predicate SameProtected(a: Request, b: Request) {
    a.id == b.id && a.frontend == b.frontend && a.model == b.model && a.stream == b.stream
  }

  /** The four protected fields, in the order in which a change is reported. */
  lemma ChangedFieldIs(before: Request, after: Request)
    ensures ChangedField(before, after).None? <==> after == before.(body := after.body)
    ensures ChangedField(before, after) == Some("id") <==> before.id != after.id
    ensures ChangedField(before, after) == Some("frontend") <==> before.id == after.id && before.frontend != after.frontend
    ensures ChangedField(before, after) == Some("model") <==>
            before.id == after.id && before.frontend == after.frontend && before.model != after.model
    ensures ChangedField(before, after) == Some("stream") <==>
            before.id == after.id && before.frontend == after.frontend && before.model == after.model &&
            before.stream != after.stream
  {
  }

  /** The call succeeded and kept the protected fields: its output becomes the request. */
  predicate Accepts(e: PluginEntry, raw: HookResult<Request>, before: Request) {
    e.enabled && raw.Value? && SameProtected(before, raw.value)
  }

  /** The error with which the entry ends the walk, if it does. */
  predicate Rejects(e: PluginEntry, hook: string, raw: HookResult<Request>, before: Request, err: PluginError) {
    e.enabled &&
    match raw
    case Value(after) =>
      e.onError == FailOnError && ChangedField(before, after).Some? &&
      err == ProtectedFieldMutated(e.name, hook, ChangedField(before, after).value)
    case Raised(x) => err == x && (x.Aborted? || e.onError == FailOnError)
    case Elapsed => e.onError == FailOnError && err == Timeout(e.name, hook)
  }

  /** One entry's effect when it does not end the walk. */
  predicate Moves(e: PluginEntry, hook: string, raw: HookResult<Request>, before: Request, after: Request) {
    if Accepts(e, raw, before) then after == raw.value
    else after == before && (!e.enabled || (e.onError == SkipErrors && !(raw.Raised? && raw.error.Aborted?)))
  }

  /** The requests as each entry saw them, and the result. */
  ghost predicate Walked(entries: seq<PluginEntry>, hook: string, behave: Behaviour, req: Request,
                         reqs: seq<Request>, r: Result<Request, PluginError>) {
    && 1 <= |reqs| <= |entries| + 1 && reqs[0] == req
    && (forall i :: 0 <= i < |reqs| - 1 ==> Moves(entries[i], hook, behave(i)(reqs[i]), reqs[i], reqs[i + 1]))
    && match r
       case Ok(out) => |reqs| == |entries| + 1 && out == reqs[|entries|]
       case Err(e) =>
         var n := |reqs| - 1;
         n < |entries| && Rejects(entries[n], hook, behave(n)(reqs[n]), reqs[n], e)
  }

  method WalkRequestHook(entries: seq<PluginEntry>, hook: string, behave: Behaviour, req: Request)
    returns (r: Result<Request, PluginError>, ghost reqs: seq<Request>)
    ensures Walked(entries, hook, behave, req, reqs, r)
    ensures r.Ok? ==> r.value == req.(body := r.value.body)
    ensures r.Err? ==> r.error.Aborted? || exists i :: 0 <= i < |entries| && entries[i].onError == FailOnError
  {
    var current := req;
    reqs := [req];
    for i := 0 to |entries|
      invariant |reqs| == i + 1 && reqs[0] == req && reqs[i] == current && SameProtected(req, current)
      invariant forall j :: 0 <= j < i ==> Moves(entries[j], hook, behave(j)(reqs[j]), reqs[j], reqs[j + 1])
    {
      var entry := entries[i];
      if entry.enabled {
        var candidate := current;
        var outcome := Invoke(entry.name, hook, entry.onError, behave(i)(candidate));
        match outcome {
          case Success(new_req) =>
            var changed := ChangedField(current, new_req);
            if changed.None? {
              current := new_req;
            } else if entry.onError == FailOnError {
              return Err(ProtectedFieldMutated(entry.name, hook, changed.value)), reqs;
            }
          case Skipped =>
          case Propagate(e) =>
            return Err(e), reqs;
        }
      }
      reqs := reqs + [current];
    }
    return Ok(current), reqs;
  }

  /** The rules leave no choice: what every entry sees, and the result, are determined. */
  lemma WalkIsDetermined(entries: seq<PluginEntry>, hook: string, behave: Behaviour, req: Request,
                         reqs: seq<Request>, r: Result<Request, PluginError>,
                         reqs': seq<Request>, r': Result<Request, PluginError>)
    requires Walked(entries, hook, behave, req, reqs, r) && Walked(entries, hook, behave, req, reqs', r')
    ensures reqs == reqs' && r == r'
  {
    SamePrefix(entries, hook, behave, req, reqs, r, reqs', r', |reqs| - 1);
    SamePrefix(entries, hook, behave, req, reqs, r, reqs', r', |reqs'| - 1);
  }

  lemma {:induction false} SamePrefix(entries: seq<PluginEntry>, hook: string, behave: Behaviour, req: Request,
                   reqs: seq<Request>, r: Result<Request, PluginError>,
                   reqs': seq<Request>, r': Result<Request, PluginError>, n: nat)
    requires Walked(entries, hook, behave, req, reqs, r) && Walked(entries, hook, behave, req, reqs', r')
    requires n < |reqs| || n < |reqs'|
    ensures n < |reqs| && n < |reqs'|
    ensures forall i :: 0 <= i <= n ==> reqs[i] == reqs'[i]
  {
    if n > 0 {
      SamePrefix(entries, hook, behave, req, reqs, r, reqs', r', n - 1);
      var i := n - 1;
      assert n < |reqs| ==> Moves(entries[i], hook, behave(i)(reqs[i]), reqs[i], reqs[i + 1]);
      assert n < |reqs'| ==> Moves(entries[i], hook, behave(i)(reqs'[i]), reqs'[i], reqs'[i + 1]);
      MovesXorRejects(entries[i], hook, behave(i)(reqs[i]), reqs[i]);
    }
  }

  lemma MovesXorRejects(e: PluginEntry, hook: string, raw: HookResult<Request>, before: Request)
    ensures (exists after :: Moves(e, hook, raw, before, after)) <==> !(exists err :: Rejects(e, hook, raw, before, err))
    ensures forall a, b :: Moves(e, hook, raw, before, a) && Moves(e, hook, raw, before, b) ==> a == b
    ensures forall a, b :: Rejects(e, hook, raw, before, a) && Rejects(e, hook, raw, before, b) ==> a == b
  {
    if Accepts(e, raw, before) {
      assert Moves(e, hook, raw, before, raw.value);
    } else if Moves(e, hook, raw, before, before) {
    } else {
      var err := match raw
        case Value(after) => ProtectedFieldMutated(e.name, hook, ChangedField(before, after).value)
        case Raised(x) => x
        case Elapsed => Timeout(e.name, hook);
      assert Rejects(e, hook, raw, before, err);
    }
  }
}

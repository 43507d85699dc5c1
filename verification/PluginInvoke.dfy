/** The envelope around every plugin call: how a raw result becomes an outcome under `on_error`. */
module PluginInvoke {
  datatype PluginError =
    | Timeout(plugin: string, hook: string)
    | Failed(plugin: string, hook: string, message: string)
    | Aborted(plugin: string, reason: string)
    | ProtectedFieldMutated(plugin: string, hook: string, field: string)

  datatype OnError = SkipErrors | FailOnError

  /** What a hook call produced: a value, an error, or nothing before its timeout. */
  datatype HookResult<T> = Value(value: T) | Raised(error: PluginError) | Elapsed

  datatype Outcome<T> = Success(value: T) | Skipped | Propagate(error: PluginError)

  function Invoke<T>(name: string, hook: string, onError: OnError, r: HookResult<T>): Outcome<T> {
    match r
    case Value(v) => Success(v)
    case Raised(Aborted(p, reason)) => Propagate(Aborted(p, reason))
    case Raised(e) => if onError == SkipErrors then Skipped else Propagate(e)
    case Elapsed => if onError == SkipErrors then Skipped else Propagate(Timeout(name, hook))
  }
}

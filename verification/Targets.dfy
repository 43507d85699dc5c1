/** One element of a fallback chain, and the breaker key it maps to. */
module Targets {
  import opened CircuitBreaker

  datatype BackendTarget = BackendTarget(provider: string, model: string)

  function KeyOf(t: BackendTarget): Key {
    Key(t.provider, t.model)
  }
}

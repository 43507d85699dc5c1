/** Error classification shared by the retry loop and the chain walk. */
module Fallback {
  datatype ProviderError =
    | UnknownProvider(provider: string)
    | Upstream(status: nat, body: string)
    | Network(message: string)
    | Decode(message: string)
    | Encode(message: string)
    | CapabilityMismatch(message: string)

  /** The built-in classifier. */
  predicate DefaultEligible(e: ProviderError) {
    match e
    case Network(_) => true
    case Upstream(status, _) => status >= 500 || status == 429
    case _ => false
  }

  function ErrorTag(e: ProviderError): string {
    match e
    case Network(_) => "network"
    case Upstream(status, _) =>
      if status >= 500 then "upstream_5xx" else if status == 429 then "upstream_429" else "upstream_4xx"
    case Decode(_) => "decode"
    case Encode(_) => "encode"
    case CapabilityMismatch(_) => "capability_mismatch"
    case UnknownProvider(_) => "unknown_provider"
  }

  /** The per-route list fully replaces the built-in classifier. */
  predicate Eligible(e: ProviderError, retryOn: seq<string>) {
    ErrorTag(e) in retryOn
  }

  /** The override list is consulted by these names. */
  lemma EligibleByName(e: ProviderError, retryOn: seq<string>)
    ensures e.Network? ==> (Eligible(e, retryOn) <==> "network" in retryOn)
    ensures e.Upstream? && 500 <= e.status ==> (Eligible(e, retryOn) <==> "upstream_5xx" in retryOn)
    ensures e.Upstream? && e.status == 429 ==> (Eligible(e, retryOn) <==> "upstream_429" in retryOn)
    ensures e.Upstream? && e.status < 500 && e.status != 429 ==> (Eligible(e, retryOn) <==> "upstream_4xx" in retryOn)
    ensures e.Decode? ==> (Eligible(e, retryOn) <==> "decode" in retryOn)
    ensures e.Encode? ==> (Eligible(e, retryOn) <==> "encode" in retryOn)
    ensures e.CapabilityMismatch? ==> (Eligible(e, retryOn) <==> "capability_mismatch" in retryOn)
    ensures e.UnknownProvider? ==> (Eligible(e, retryOn) <==> "unknown_provider" in retryOn)
  {
  }

  const DEFAULT_RETRY_ON := ["network", "upstream_5xx", "upstream_429"]

  /** A list reproduces the built-in classifier on every error iff it names its three classes and no other class. */
  lemma OverridesMatchDefaults(retryOn: seq<string>)
    ensures (forall e :: Eligible(e, retryOn) <==> DefaultEligible(e)) <==>
            (forall t :: t in ["network", "upstream_5xx", "upstream_429", "upstream_4xx", "decode", "encode",
                               "capability_mismatch", "unknown_provider"] ==>
                         (t in retryOn <==> t in DEFAULT_RETRY_ON))
  {
    if forall e :: Eligible(e, retryOn) <==> DefaultEligible(e) {
      assert Eligible(Network(""), retryOn) && Eligible(Upstream(500, ""), retryOn) && Eligible(Upstream(429, ""), retryOn);
      assert !Eligible(Upstream(400, ""), retryOn) && !Eligible(Decode(""), retryOn) && !Eligible(Encode(""), retryOn);
      assert !Eligible(CapabilityMismatch(""), retryOn) && !Eligible(UnknownProvider(""), retryOn);
    }
  }
}

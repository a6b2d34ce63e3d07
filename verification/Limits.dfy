/** Documented request ceilings per provider namespace (src/_internal/limits.py). */
module ProviderLimits {
  import opened Options
  import opened RealMath

  datatype ProviderHardLimit = ProviderHardLimit(maxRequestsPerSecond: Option<real>, maxRpm: Option<int>)

  function HardCapRps(limit: ProviderHardLimit): real {
    match limit.maxRequestsPerSecond
    case Some(rps) => rps
    case None =>
      match limit.maxRpm
      case Some(rpm) => rpm as real / 60.0
      case None => 1.0
  }

  function Rps(rps: real): ProviderHardLimit {
    ProviderHardLimit(Some(rps), None)
  }

  function Rpm(rpm: int): ProviderHardLimit {
    ProviderHardLimit(None, Some(rpm))
  }

  const DEFAULT_PROVIDER_HARD_LIMITS: map<string, ProviderHardLimit> := map[
    "yfinance" := Rps(10.0),
    "yahoo" := Rps(2.0),
    "alpha_vantage" := Rps(0.083),
    "fred" := Rps(2.0),
    "massive" := Rps(5.0),
    "groq" := Rpm(30),
    "gemini" := Rpm(60),
    "nvidia" := Rpm(60),
    "stocktwits" := Rpm(60),
    "google_news" := Rps(1.0),
    "reddit" := Rps(0.5),
    "screener.tradingview" := Rps(2.0),
    "screener.yahoo_trending" := Rps(2.0),
    "screener.yahoo_predefined" := Rps(2.0),
    "screener.finviz" := Rps(2.0)
  ]

  /** A configured cap can be tightened by the documented one, never loosened, and stays positive. */
  function GetHardCapRps(namespace: string, configuredCap: real): (cap: real)
    ensures cap <= configuredCap
    ensures namespace in DEFAULT_PROVIDER_HARD_LIMITS ==>
              cap <= HardCapRps(DEFAULT_PROVIDER_HARD_LIMITS[namespace])
    ensures cap == configuredCap || (namespace in DEFAULT_PROVIDER_HARD_LIMITS &&
                                     cap == HardCapRps(DEFAULT_PROVIDER_HARD_LIMITS[namespace]))
    ensures configuredCap > 0.0 ==> cap > 0.0
    ensures namespace in DEFAULT_PROVIDER_HARD_LIMITS ==>
              var documented := DEFAULT_PROVIDER_HARD_LIMITS[namespace];
              && (documented.maxRequestsPerSecond.Some? ==>
                    cap <= documented.maxRequestsPerSecond.value
                    && (cap < configuredCap ==> cap == documented.maxRequestsPerSecond.value))
              && (documented.maxRequestsPerSecond.None? && documented.maxRpm.Some? ==>
                    60.0 * cap <= documented.maxRpm.value as real
                    && (cap < configuredCap ==> 60.0 * cap == documented.maxRpm.value as real))
  {
    if namespace in DEFAULT_PROVIDER_HARD_LIMITS
    then Min(configuredCap, HardCapRps(DEFAULT_PROVIDER_HARD_LIMITS[namespace]))
    else configuredCap
  }
}

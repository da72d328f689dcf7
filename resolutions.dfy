/** The bucketing granularities a caller may ask for. */
module Resolutions {

  /** A resolution is an integer code; only `Hours` and `Days` are supported. */
  type Resolution = int

  const Hours: Resolution := 1
  const Days: Resolution := 2

  /** The names a caller may use to select a resolution. */
  const ResolutionNames: map<string, Resolution> := map["hour" := Hours, "day" := Days]

  predicate Supported(resolution: Resolution) {
    resolution == Hours || resolution == Days
  }

  /** Only "hour" and "day" are named, and each names a supported resolution. */
  lemma ResolutionNamesSupported()
    ensures ResolutionNames.Keys == {"hour", "day"}
    ensures forall name | name in ResolutionNames :: Supported(ResolutionNames[name])
    ensures ResolutionNames["hour"] == Hours && ResolutionNames["day"] == Days
  {
  }
}

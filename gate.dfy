/** The mock gate, `shouldMock`: decides from the environment toggle and the
    configured URL patterns whether a request may be answered from a fixture. */
module Gate {
  import opened Common

  /** A URL pattern of the configuration. Every shipped pattern is a regular
      expression anchored at the start with no other operator (`/^\/api\//`),
      so it is exactly a start-of-string test. */
  datatype UrlPattern = StartsWith(prefix: string)

  /** `config.urlPatterns` */
  const UrlPatterns: seq<UrlPattern> :=
    [StartsWith("/dev-api/"), StartsWith("/prod-api/"), StartsWith("/api/")]

  /** `pattern.test(url)` */
  predicate Matches(pattern: UrlPattern, url: string) {
    HasPrefix(url, pattern.prefix)
  }

  /** `patterns.some(pattern => pattern.test(url))`, scanning in list order. */
  function AnyMatches(patterns: seq<UrlPattern>, url: string): (r: bool)
    ensures r <==> exists i :: 0 <= i < |patterns| && Matches(patterns[i], url)
  {
    if patterns == [] then false
    else if Matches(patterns[0], url) then true
    else
      var r := AnyMatches(patterns[1..], url);
      assert forall i :: 1 <= i < |patterns| ==> patterns[i] == patterns[1..][i - 1];
      r
  }

  /** `shouldMock(url)`, with the value of `VUE_APP_NETWORK_MOCK` passed in as
      `env` and the pattern list as `patterns`. */
  function ShouldMock(env: string, patterns: seq<UrlPattern>, url: string): (r: bool)
    ensures env != "true" ==> !r
    ensures env == "true" && patterns == [] ==> r
    ensures r <==> env == "true" &&
                   (patterns == [] || exists i :: 0 <= i < |patterns| && Matches(patterns[i], url))
  {
    if env != "true" then false
    else if |patterns| == 0 then true
    else AnyMatches(patterns, url)
  }

  /** With the shipped configuration the gate opens exactly for URLs under one
      of the three API roots, and only while the toggle is the string "true". */
  lemma ShippedGate(env: string, url: string)
    ensures ShouldMock(env, UrlPatterns, url) <==>
            env == "true" &&
            (HasPrefix(url, "/dev-api/") || HasPrefix(url, "/prod-api/") || HasPrefix(url, "/api/"))
  {
    assert Matches(UrlPatterns[0], url) == HasPrefix(url, "/dev-api/");
    assert Matches(UrlPatterns[1], url) == HasPrefix(url, "/prod-api/");
    assert Matches(UrlPatterns[2], url) == HasPrefix(url, "/api/");
  }
}

/** The interceptor, `mockMiddleware`: installs a request handler that answers
    from a fixture when the gate opens and a fixture is found, and otherwise
    hands the request on with `next()`. */
module Middleware {
  import opened Common
  import opened Gate
  import opened Normalizer
  import opened Resolver

  /** The parts of an incoming request the handler reads. */
  datatype Request = Request(httpMethod: string, url: string)

  /** What the handler does with a request: exactly one of calling `next()` or
      writing a response with a status, headers in the order they are set,
      and a JSON body. */
  datatype Outcome =
    | Next
    | Respond(status: int, headers: seq<(string, string)>, body: Json)

  /** The headers set on a mocked response, naming the fixture `file` used. */
  function MockHeaders(file: string): seq<(string, string)> {
    [("Content-Type", "application/json; charset=utf-8"),
     ("X-Mock-By", "DevServer"),
     ("X-Mock-File", file)]
  }

  /** The decision the handler makes for `req`, with `env` the value of
      `VUE_APP_NETWORK_MOCK` when the request arrives. */
  function Decide(env: string, fs: FileSystem, req: Request): Outcome {
    var url := BeforeQuery(req.url);
    if !ShouldMock(env, UrlPatterns, url) then Next
    else match FirstHit(fs, Candidates(url, Some(req.httpMethod)))
      case None => Next
      case Some(hit) => Respond(200, MockHeaders(hit.path), hit.data)
  }

  /** The candidate names whose existence the handler checks for `req`. */
  function Accessed(env: string, fs: FileSystem, req: Request): seq<string> {
    var url := BeforeQuery(req.url);
    if !ShouldMock(env, UrlPatterns, url) then []
    else Probed(fs, Candidates(url, Some(req.httpMethod)))
  }

  /** The handler passed to `app.use`: gate, candidate names, lookup, then a
      200 response with provenance headers or `next()`. */
  method HandleRequest(env: string, fs: FileSystem, req: Request) returns (outcome: Outcome, accessed: seq<string>)
    ensures outcome == Decide(env, fs, req)
    ensures accessed == Accessed(env, fs, req)
  {
    var url := BeforeQuery(req.url);
    if !ShouldMock(env, UrlPatterns, url) {
      return Next, [];
    }
    var mockPaths := UrlToMockPath(url, Some(req.httpMethod));
    ghost var cs := Candidates(url, Some(req.httpMethod));
    assert mockPaths == cs;
    var result;
    result, accessed := ReadMockFile(fs, Many(mockPaths));
    assert result == FirstHit(fs, cs) && accessed == Probed(fs, cs);
    if result.Some? {
      outcome := Respond(200, MockHeaders(result.value.path), result.value.data);
    } else {
      outcome := Next;
    }
  }

  /** A request arriving at the dev server. `installEnv` is the toggle when
      `mockMiddleware` ran: unless it was "true" no handler was installed and
      the request goes straight on. `requestEnv` is the toggle when the
      request arrives, which the handler's gate reads again. */
  method Serve(installEnv: string, requestEnv: string, fs: FileSystem, req: Request)
    returns (outcome: Outcome, accessed: seq<string>)
    ensures installEnv != "true" ==> outcome == Next && accessed == []
    ensures installEnv == "true" ==> outcome == Decide(requestEnv, fs, req) &&
                                     accessed == Accessed(requestEnv, fs, req)
  {
    if installEnv != "true" {
      return Next, [];
    }
    outcome, accessed := HandleRequest(requestEnv, fs, req);
  }

  /* ---------------- properties of the interceptor ---------------- */

  /** With the toggle off every request is handed on and no fixture is looked
      at, whatever the URL and whatever the fixture root holds. */
  lemma ToggleOffBypasses(env: string, fs: FileSystem, req: Request)
    requires env != "true"
    ensures Decide(env, fs, req) == Next && Accessed(env, fs, req) == []
  {
  }

  /** A URL outside the three API roots is handed on without any fixture being
      looked at. */
  lemma OutsideApiBypasses(env: string, fs: FileSystem, req: Request)
    requires var url := BeforeQuery(req.url);
             !HasPrefix(url, "/dev-api/") && !HasPrefix(url, "/prod-api/") && !HasPrefix(url, "/api/")
    ensures Decide(env, fs, req) == Next && Accessed(env, fs, req) == []
  {
    ShippedGate(env, BeforeQuery(req.url));
  }

  /** The handler responds exactly when the gate opens and one of the two
      candidate names exists and parses; otherwise it calls `next()`. */
  lemma RespondsIffFixture(env: string, fs: FileSystem, req: Request)
    ensures var url := BeforeQuery(req.url);
            var cs := Candidates(url, Some(req.httpMethod));
            Decide(env, fs, req).Respond? <==>
              ShouldMock(env, UrlPatterns, url) && (Parses(fs, cs[0]) || Parses(fs, cs[1]))
  {
    var url := BeforeQuery(req.url);
    var cs := Candidates(url, Some(req.httpMethod));
    TwoNames(fs, cs);
  }

  /** A response is always a 200 whose headers mark it as mocked and name the
      candidate it came from, and whose body is that fixture's parsed data. */
  lemma ResponseShape(env: string, fs: FileSystem, req: Request)
    requires Decide(env, fs, req).Respond?
    ensures var o := Decide(env, fs, req);
            var cs := Candidates(BeforeQuery(req.url), Some(req.httpMethod));
            o.status == 200 && |o.headers| == 3 &&
            o.headers[0] == ("Content-Type", "application/json; charset=utf-8") &&
            o.headers[1] == ("X-Mock-By", "DevServer") &&
            o.headers[2].0 == "X-Mock-File" &&
            o.headers[2].1 in cs &&
            Parses(fs, o.headers[2].1) && fs[o.headers[2].1] == Parsed(o.body)
  {
    var cs := Candidates(BeforeQuery(req.url), Some(req.httpMethod));
    FirstHitSome(fs, cs);
  }

  /** A method-specific fixture wins: it is served, and the generic name is
      never looked at. */
  lemma MethodSpecificWins(env: string, fs: FileSystem, req: Request)
    requires ShouldMock(env, UrlPatterns, BeforeQuery(req.url))
    requires Parses(fs, Candidates(BeforeQuery(req.url), Some(req.httpMethod))[0])
    ensures var c := Candidates(BeforeQuery(req.url), Some(req.httpMethod))[0];
            Decide(env, fs, req) == Respond(200, MockHeaders(c), fs[c].value) &&
            Accessed(env, fs, req) == [c]
  {
  }

  /** Without a usable method-specific fixture the generic one is served, after
      both names were looked at. */
  lemma GenericFallback(env: string, fs: FileSystem, req: Request)
    requires ShouldMock(env, UrlPatterns, BeforeQuery(req.url))
    requires var cs := Candidates(BeforeQuery(req.url), Some(req.httpMethod));
             !Parses(fs, cs[0]) && Parses(fs, cs[1])
    ensures var cs := Candidates(BeforeQuery(req.url), Some(req.httpMethod));
            Decide(env, fs, req) == Respond(200, MockHeaders(cs[1]), fs[cs[1]].value) &&
            Accessed(env, fs, req) == cs
  {
    var cs := Candidates(BeforeQuery(req.url), Some(req.httpMethod));
    TwoNames(fs, cs);
  }

  /** A fixture that exists but cannot be read or parsed, with no usable
      alternative, is treated as absent: the request is handed on. */
  lemma BrokenFixtureFallsThrough(env: string, fs: FileSystem, req: Request)
    requires var cs := Candidates(BeforeQuery(req.url), Some(req.httpMethod));
             cs[0] in fs && fs[cs[0]] == Unreadable && cs[1] !in fs
    ensures Decide(env, fs, req) == Next
  {
    RespondsIffFixture(env, fs, req);
  }

  /** The query string plays no part in the decision. */
  lemma QueryIrrelevant(env: string, fs: FileSystem, m: string, path: string, query: string)
    requires '?' !in path
    ensures Decide(env, fs, Request(m, path + "?" + query)) == Decide(env, fs, Request(m, path))
  {
    var u := path + "?" + query;
    QueryIgnored(path, query, Some(m));
    NoQuery(path);
    BeforeQuerySpec(u);
    var r := BeforeQuery(u);
    assert u[|path|] == '?';
    assert |r| == |path|;
    assert r == u[..|path|] == path;
  }
}

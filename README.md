# Dev-server mock interceptor, modelled in Dafny

This project models the request interceptor in `devMock/devServerMock.js`.
The interceptor is middleware for the webpack dev server. For each request it
either answers from a local JSON fixture file or hands the request on to the
real backend with `next()`. It has four parts, each modelled in its own
module:

- `Gate` — `shouldMock`. It checks the environment toggle
  `VUE_APP_NETWORK_MOCK` and the configured URL patterns. The three shipped
  patterns are start-of-string tests for `/dev-api/`, `/prod-api/` and `/api/`.
- `Normalizer` — `urlToMockPath`. It turns a URL and an HTTP method into two
  fixture names, method-specific first. The steps are: cut at `?`, drop one
  leading `/`, drop one API prefix, turn every `/` into `-`, run the four
  rewrite rules, then emit `<base>.<method>.json` and `<base>.json`. The
  rewrite rules are the concrete patterns of `config.pathMappings`, written as
  string functions. `String.replace` without the `g` flag changes only the
  leftmost match, and so does the model.
- `Resolver` — `readMockFile`. A first-hit search over the candidate names. A
  name that is missing is skipped. So is a name whose file cannot be read or
  parsed. The file system is a map from the name, relative to the fixture
  root, to either a parsed JSON value or "unreadable".
- `Middleware` — the handler that `mockMiddleware` installs. It returns an
  `Outcome`: `Next`, or `Respond(200, headers, body)` with the headers
  `Content-Type: application/json; charset=utf-8`, `X-Mock-By: DevServer` and
  `X-Mock-File: <name used>`.

`Common` holds `Option`, `Json` (a parsed JSON value that the interceptor never inspects) and `HasPrefix`.

`urlToMockPath` and `readMockFile` update local state step by step, so they
are methods (`UrlToMockPath`, `ReadMockFile`) with loops. Each is proved
against a specification function (`FlatBase`/`Candidates`, and
`FirstHit`/`Probed`). The lemmas are stated about those functions. The
handler is the method `HandleRequest`, proved against the function `Decide`.

The environment is read twice in the source: once when `mockMiddleware` runs
(line 131) and again inside `shouldMock` for each request (line 41). The model
takes both values as parameters (`Serve(installEnv, requestEnv, …)`).
`ReadMockFile` and `HandleRequest` also return the list of names whose
existence was checked. This list states which fixture files the code touches.

**The rewrite rules never fire.** The rules at lines 21-27 are labelled as
rules for dynamic parameters. They replace a numeric segment by `/_id` and a
UUID segment by `/_uuid`, so `GET /api/users/42` was evidently meant to look
for `users-_id.get.json`. But every rule at lines 23-26 needs a literal `/`,
and line 71 has already replaced every `/` with `-` before the rules run at
lines 74-76. So the request looks for `users-42.get.json`. The model follows
the code:

- `MappingsInert` proves the rule loop leaves every base unchanged.
- `NumericIdKept` proves the concrete `users-42` result.
- `RulesEndInId` proves the rules do work on a `/`-separated path: any path
  ending in a numeric segment comes out ending in `/_id`.
  `RulesRewriteTrailingId` gives the exact result `p/_id` for a two-segment
  path `p/digits`. So the ordering at line 71, not the rules themselves,
  causes the difference.

## Model

| member | source | states |
|---|---|---|
| Gate.AnyMatches | devMock/devServerMock.js:49 | `some` over the patterns is true iff some pattern in the list matches the URL |
| Gate.ShouldMock | devMock/devServerMock.js:39-50 | false whenever the toggle is not exactly `"true"`; with the toggle on, true for an empty pattern list, otherwise true iff some pattern matches |
| Gate.ShippedGate | devMock/devServerMock.js:15-19 | with the shipped patterns the gate opens iff the toggle is `"true"` and the URL starts with `/dev-api/`, `/prod-api/` or `/api/` |
| Normalizer.BeforeQuerySpec | devMock/devServerMock.js:60 | the result is a `?`-free prefix of the URL, followed in the URL by `?` unless it is the whole URL |
| Normalizer.StripLeadingSlash | devMock/devServerMock.js:63-65 | exactly one leading `/` is removed when present, otherwise the path is unchanged |
| Normalizer.StripApiPrefixSpec | devMock/devServerMock.js:68 | the result is a suffix; it equals the input iff no prefix `dev-api/`, `prod-api/`, `api/` starts it, and otherwise the input is one such prefix followed by the result |
| Normalizer.StripApi | devMock/devServerMock.js:68 | `api/` at the start is removed and nothing else |
| Normalizer.FlattenSpec | devMock/devServerMock.js:71 | same length, no `/` left, each `/` becomes `-` and every other character stays in place |
| Normalizer.MatchAt | devMock/devServerMock.js:23-26 | a rule can only match where the string has a `/`, and the match lies inside the string |
| Normalizer.FindMatch | devMock/devServerMock.js:75 | finds the leftmost match of a rule, or reports that no position matches |
| Normalizer.NoSlashReplaceFirst | devMock/devServerMock.js:23-26 | every rule needs a `/`, so `replace` with any rule leaves a `/`-free string unchanged |
| Normalizer.UnchangedByEach | devMock/devServerMock.js:74-76 | a string that each rule leaves alone comes out of the `forEach` unchanged |
| Normalizer.NoSlashApplyMappings | devMock/devServerMock.js:74-76 | the rule loop leaves a `/`-free string unchanged |
| Normalizer.ToLowerSpec | devMock/devServerMock.js:79 | no upper-case ASCII letter remains; each becomes its lower-case partner and other characters stay |
| Normalizer.UrlToMockPath | devMock/devServerMock.js:58-89 | returns exactly two names sharing the flattened base: first `base.<lower method>.json`, then `base.json`; an omitted method means GET |
| Normalizer.MappingsInert | devMock/devServerMock.js:71-76 | the base contains neither `/` nor `?`, and the rewrite loop leaves it unchanged |
| Normalizer.CandidatesShape | devMock/devServerMock.js:79-88 | always two distinct names, method-specific first; the generic one has no `/` or `?` |
| Normalizer.DefaultMethodIsGet | devMock/devServerMock.js:58 | an omitted method gives the same names as GET, the first being `base.get.json` |
| Normalizer.EmptyBase | devMock/devServerMock.js:60-88 | an empty path after stripping gives `.get.json` and `.json` |
| Normalizer.QueryIgnored | devMock/devServerMock.js:60 | the query string has no influence on the names |
| Normalizer.UsersBase | devMock/devServerMock.js:60-71 | `/api/users/42` has the base `users-42` |
| Normalizer.NumericIdKept | devMock/devServerMock.js:58-89 | as written, `GET /api/users/42` yields `users-42.get.json`, `users-42.json` (the numeric id is not rewritten) |
| Normalizer.LeftmostMatch | devMock/devServerMock.js:75 | a match with no `/` before it is the one `replace` rewrites |
| Normalizer.TrailingIdMatched | devMock/devServerMock.js:23 | the first rule turns a trailing `/digits` into `/_id`, whatever precedes it (any number of `/`) |
| Normalizer.IdSegmentStays | devMock/devServerMock.js:24-26 | applied to `p/_id` where `p` has no `/`, the other three rules change nothing |
| Normalizer.RulesRewriteTrailingId | devMock/devServerMock.js:22-27 | applied to a two-segment path `p/digits` whose `p` has no `/`, the four rules give exactly `p/_id` |
| Normalizer.MatchBeforeIdSegment | devMock/devServerMock.js:23-26 | in a string ending in `/_id` no rule matches up to the end, and a match ends at the latest with the `/` of that segment |
| Normalizer.KeepsIdSuffix | devMock/devServerMock.js:24-26 | a rule whose replacement keeps its trailing `/` leaves a final `/_id` segment in place |
| Normalizer.IdSuffixSurvives | devMock/devServerMock.js:74-76 | the `forEach` over such rules leaves a final `/_id` segment in place |
| Normalizer.RulesEndInId | devMock/devServerMock.js:22-27 | applied to any path ending in `/digits`, however many segments precede it, the four rules give a string ending in `/_id` |
| Resolver.SearchStep | devMock/devServerMock.js:99-111 | one loop turn: a parsing candidate ends the search with its data; any other candidate passes the search to the rest |
| Resolver.ReadMockFile | devMock/devServerMock.js:96-114 | returns the first candidate that exists and parses, and checks exactly the candidates up to it |
| Resolver.FirstHitNone | devMock/devServerMock.js:102-113 | the result is null iff no candidate both exists and parses |
| Resolver.FirstHitIsFirst | devMock/devServerMock.js:103-106 | the first parsing candidate is returned, with its data and its relative name |
| Resolver.FirstHitSome | devMock/devServerMock.js:99-107 | every hit names a candidate from the list that parses to the returned data, with no parsing candidate before it |
| Resolver.ProbedStopsAtHit | devMock/devServerMock.js:99-107 | the names checked are a prefix of the list that ends at the hit, or the whole list when there is none |
| Resolver.LaterCandidatesIgnored | devMock/devServerMock.js:103-106 | candidates after the hit are never examined: changing them changes neither the result nor the names checked |
| Resolver.UnreadableSkipped | devMock/devServerMock.js:102-110 | a fixture that exists but fails to read or parse gives the same result as a missing one |
| Resolver.TwoNames | devMock/devServerMock.js:99-113 | for two names: a hit iff one parses; the generic one is served, after both were checked, only when the first does not parse |
| Resolver.SingleName | devMock/devServerMock.js:97 | a single name is searched as a one-element list |
| Middleware.HandleRequest | devMock/devServerMock.js:142-171 | the handler's outcome and the names it checks are those of `Decide` and `Accessed` |
| Middleware.Serve | devMock/devServerMock.js:129-142 | no handler is installed unless the toggle was `"true"`, so the request is handed on and no fixture is touched; otherwise the handler decides |
| Middleware.ToggleOffBypasses | devMock/devServerMock.js:39-44 | with the toggle off every request is handed on and no fixture is touched |
| Middleware.OutsideApiBypasses | devMock/devServerMock.js:143-149 | a URL outside the three API roots is handed on and no fixture is touched |
| Middleware.RespondsIffFixture | devMock/devServerMock.js:155-170 | a response is written iff the gate opens and one of the two names exists and parses; otherwise `next()` |
| Middleware.ResponseShape | devMock/devServerMock.js:157-165 | a response is 200 with the content-type, `X-Mock-By: DevServer` and `X-Mock-File` headers, naming a candidate whose parsed data is the body |
| Middleware.MethodSpecificWins | devMock/devServerMock.js:151-165 | a parsing method-specific fixture is served and the generic name is never checked |
| Middleware.GenericFallback | devMock/devServerMock.js:151-165 | without a usable method-specific fixture the generic one is served, after both names were checked |
| Middleware.BrokenFixtureFallsThrough | devMock/devServerMock.js:155-170 | an unreadable method-specific fixture with no generic one leads to `next()` |
| Middleware.QueryIrrelevant | devMock/devServerMock.js:143 | the query string has no influence on the decision |

## Left out

- Logging is left out, because it is output only. This covers `log` (lines 119-124), its colour codes, `config.log`, and the `console.log` / `console.error` calls at lines 109, 134, 138-139, 159 and 168.
- `config.mockRoot` and `path.join` are not modelled: the file system is keyed by the relative candidate name. So two names that `path.join` would normalise to the same file (through `..` or repeated separators) are distinct keys here.
- `fs.existsSync`, `fs.readFileSync` and `JSON.parse` are not modelled. The model replaces them with the `Fixture` map: a key that is absent does not exist, and `Unreadable` stands for any read or parse failure. The interceptor passes the `Json` value through without inspecting it: numbers are plain integers and parsing itself is not modelled.
- Express is not modelled: `app.use`, the `req`/`res` objects and the serialisation done by `res.json`. The response is the `Outcome` value, and its body is the parsed value.
- `process.env` is not read: its two reads are the parameters `installEnv` and `requestEnv`.
- Regular expressions in general are not modelled. Only the concrete patterns of the configuration are: `UrlPattern` is a start-of-string test, and the four path mappings are the `Token`/`Tail` rules.
- Normalizer.ToLowerSpec: lowers ASCII letters only. JavaScript's `toLowerCase` also lowers non-ASCII letters, which HTTP method names do not contain.
- node-tools/online.js, src/assets/js/scrollTo.js and vue.config.js are not part of this model. They are a deployment script, a DOM scroll helper and static build configuration.

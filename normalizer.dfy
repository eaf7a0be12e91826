/** The path normaliser, `urlToMockPath`: turns a request URL and HTTP method
    into the two fixture file names tried for it, method-specific first. */
module Normalizer {
  import opened Common

  /* ---------------- step 1: `url.split('?')[0]` ---------------- */

  function BeforeQuery(s: string): string {
    if s == [] then []
    else if s[0] == '?' then []
    else [s[0]] + BeforeQuery(s[1..])
  }

  /** The result is the text before the first `?`: a prefix of `s` with no
      `?` in it, followed in `s` by a `?` unless it is all of `s`. */
  lemma {:induction false} BeforeQuerySpec(s: string)
    ensures var r := BeforeQuery(s);
            |r| <= |s| && r == s[..|r|] && '?' !in r && (r == s || s[|r|] == '?')
  {
    if s != [] && s[0] != '?' {
      BeforeQuerySpec(s[1..]);
    }
  }

  /* ---------------- step 2: drop one leading `/` ---------------- */

  function StripLeadingSlash(s: string): (r: string)
    ensures HasPrefix(s, "/") ==> s == "/" + r
    ensures !HasPrefix(s, "/") ==> r == s
  {
    if HasPrefix(s, "/") then s[1..] else s
  }

  /* ---------------- step 3: `replace(/^(dev-api|prod-api|api)\//, '')` ---------------- */

  /** The alternatives of the prefix expression, in the order the regular
      expression tries them. */
  const ApiPrefixes: seq<string> := ["dev-api/", "prod-api/", "api/"]

  /** Removes one API prefix at the start of `s`, if there is one. At most one
      prefix is removed: the alternatives differ in their first character, so
      at most one of them can match at position 0. */
  function StripApiPrefix(s: string): string {
    if HasPrefix(s, "dev-api/") then s[8..]
    else if HasPrefix(s, "prod-api/") then s[9..]
    else if HasPrefix(s, "api/") then s[4..]
    else s
  }

  /** The result is a suffix of `s`; it is all of `s` exactly when no prefix
      is present, and otherwise `s` is one prefix followed by the result. */
  lemma StripApiPrefixSpec(s: string)
    ensures var r := StripApiPrefix(s);
            |r| <= |s| && r == s[|s| - |r|..] &&
            (r == s <==> forall k :: 0 <= k < |ApiPrefixes| ==> !HasPrefix(s, ApiPrefixes[k])) &&
            (r != s ==> exists k :: 0 <= k < |ApiPrefixes| && s == ApiPrefixes[k] + r)
  {
    if HasPrefix(s, "dev-api/") {
      assert s == ApiPrefixes[0] + s[8..];
    } else if HasPrefix(s, "prod-api/") {
      assert s == ApiPrefixes[1] + s[9..];
    } else if HasPrefix(s, "api/") {
      assert s == ApiPrefixes[2] + s[4..];
    }
  }

  /* ---------------- step 4: `replace(/\//g, '-')` ---------------- */

  function Flatten(s: string): string {
    if s == [] then []
    else [if s[0] == '/' then '-' else s[0]] + Flatten(s[1..])
  }

  /** Every `/` becomes `-`, every other character is kept in place, and no
      `/` is left. */
  lemma {:induction false} FlattenSpec(s: string)
    ensures var r := Flatten(s);
            |r| == |s| && '/' !in r &&
            (forall i :: 0 <= i < |s| && s[i] != '/' ==> r[i] == s[i]) &&
            (forall i :: 0 <= i < |s| && s[i] == '/' ==> r[i] == '-')
  {
    if s != [] {
      FlattenSpec(s[1..]);
      var r := Flatten(s);
      assert r[1..] == Flatten(s[1..]);
    }
  }

  /* ---------------- step 5: `config.pathMappings` ---------------- */

  /** What a dynamic segment consists of: `\d+` or `[a-f0-9-]{36}`. */
  datatype Token = Digits | Uuid36
  /** What must follow the segment: the end of the string (`$`) or a `/`. */
  datatype Tail = AtEnd | BeforeSlash
  /** One rewrite rule: the pattern `\/(token)tail` and its replacement. */
  datatype Mapping = Mapping(token: Token, tail: Tail, replacement: string)

  /** `config.pathMappings`, in the order `forEach` applies them. */
  const PathMappings: seq<Mapping> := [
    Mapping(Digits, AtEnd, "/_id"),
    Mapping(Digits, BeforeSlash, "/_id/"),
    Mapping(Uuid36, AtEnd, "/_uuid"),
    Mapping(Uuid36, BeforeSlash, "/_uuid/")
  ]

  predicate IsDigit(c: char) { '0' <= c <= '9' }

  predicate IsUuidChar(c: char) { IsDigit(c) || 'a' <= c <= 'f' || c == '-' }

  /** The end of the run of digits that starts at `j`. */
  function DigitRunEnd(s: string, j: nat): (k: nat)
    requires j <= |s|
    ensures j <= k <= |s|
    ensures forall t :: j <= t < k ==> IsDigit(s[t])
    ensures k == |s| || !IsDigit(s[k])
    decreases |s| - j
  {
    if j < |s| && IsDigit(s[j]) then DigitRunEnd(s, j + 1) else j
  }

  /** The length of the match of rule `m` that starts at position `i`, if any.
      No backtracking is needed: `\d+` must be followed by the end or a `/`,
      neither of which is a digit, so only the longest run can match. */
  function MatchAt(m: Mapping, s: string, i: nat): (r: Option<nat>)
    requires i < |s|
    ensures r.Some? ==> s[i] == '/' && 0 < r.value && i + r.value <= |s|
  {
    if s[i] != '/' then None
    else
      match m.token
      case Digits =>
        var k := DigitRunEnd(s, i + 1);
        if k == i + 1 then None
        else if m.tail == AtEnd then (if k == |s| then Some(k - i) else None)
        else if k < |s| && s[k] == '/' then Some(k + 1 - i)
        else None
      case Uuid36 =>
        if i + 37 <= |s| && forall t :: i + 1 <= t < i + 37 ==> IsUuidChar(s[t]) then
          if m.tail == AtEnd then (if i + 37 == |s| then Some(37) else None)
          else if i + 37 < |s| && s[i + 37] == '/' then Some(38)
          else None
        else None
  }

  /** The leftmost match of `m` at or after position `i`: its start and length. */
  function FindMatch(m: Mapping, s: string, i: nat): (r: Option<(nat, nat)>)
    requires i <= |s|
    ensures r.None? ==> forall q :: i <= q < |s| ==> MatchAt(m, s, q).None?
    ensures r.Some? ==> i <= r.value.0 < |s| && MatchAt(m, s, r.value.0) == Some(r.value.1)
    ensures r.Some? ==> forall q :: i <= q < r.value.0 ==> MatchAt(m, s, q).None?
    decreases |s| - i
  {
    if i == |s| then None
    else match MatchAt(m, s, i)
      case Some(len) => Some((i, len))
      case None => FindMatch(m, s, i + 1)
  }

  /** `s.replace(pattern, replacement)` without the `g` flag: only the leftmost
      match is replaced. */
  function ReplaceFirst(m: Mapping, s: string): string {
    match FindMatch(m, s, 0)
    case None => s
    case Some((i, len)) => s[..i] + m.replacement + s[i + len..]
  }

  /** The `forEach` over the rules: each sees the output of the one before. */
  function ApplyMappings(ms: seq<Mapping>, s: string): string
    decreases |ms|
  {
    if ms == [] then s else ApplyMappings(ms[1..], ReplaceFirst(ms[0], s))
  }

  /** Every rule begins with a literal `/`, so none matches a string without
      one and `replace` leaves it as it is. */
  lemma NoSlashReplaceFirst(m: Mapping, s: string)
    requires '/' !in s
    ensures ReplaceFirst(m, s) == s
  {
    assert FindMatch(m, s, 0) == None;
  }

  lemma NoSlashApplyMappings(ms: seq<Mapping>, s: string)
    requires '/' !in s
    ensures ApplyMappings(ms, s) == s
  {
    forall k | 0 <= k < |ms| ensures ReplaceFirst(ms[k], s) == s {
      NoSlashReplaceFirst(ms[k], s);
    }
    UnchangedByEach(ms, s);
  }

  /* ---------------- step 6: the candidate names ---------------- */

  predicate IsUpper(c: char) { 'A' <= c <= 'Z' }

  /** `toLowerCase()` on ASCII letters. */
  function ToLower(s: string): string {
    if s == [] then []
    else [if IsUpper(s[0]) then (s[0] as int + 32) as char else s[0]] + ToLower(s[1..])
  }

  /** No upper-case letter is left; each one becomes its lower-case partner
      and every other character is kept in place. */
  lemma {:induction false} ToLowerSpec(s: string)
    ensures var r := ToLower(s);
            |r| == |s| &&
            (forall i :: 0 <= i < |r| ==> !IsUpper(r[i])) &&
            (forall i :: 0 <= i < |s| && !IsUpper(s[i]) ==> r[i] == s[i]) &&
            (forall i :: 0 <= i < |s| && IsUpper(s[i]) ==> r[i] as int == s[i] as int + 32)
  {
    if s != [] {
      ToLowerSpec(s[1..]);
      var r := ToLower(s);
      assert r[1..] == ToLower(s[1..]);
    }
  }

  /** The file base name as the code computes it before the rewrite loop:
      query cut off, one leading `/` and one API prefix dropped, `/` flattened. */
  function FlatBase(url: string): string {
    Flatten(StripApiPrefix(StripLeadingSlash(BeforeQuery(url))))
  }

  /** The candidate list `urlToMockPath(url, method)` returns, stated on the
      flattened base; `None` stands for an omitted method, which defaults to
      GET. `UrlToMockPath` shows that the code, rewrite loop included, yields
      exactly this list. */
  function Candidates(url: string, httpMethod: Option<string>): seq<string> {
    [FlatBase(url) + "." + ToLower(httpMethod.GetOr("GET")) + ".json", FlatBase(url) + ".json"]
  }

  /** `urlToMockPath`: the local `path` is reassigned step by step, the rules
      are applied in a loop, and the two names are pushed onto `paths`. */
  method UrlToMockPath(url: string, httpMethod: Option<string>) returns (paths: seq<string>)
    ensures |paths| == 2
    ensures paths[0] == FlatBase(url) + "." + ToLower(httpMethod.GetOr("GET")) + ".json"
    ensures paths[1] == FlatBase(url) + ".json"
  {
    var path := BeforeQuery(url);
    if HasPrefix(path, "/") {
      path := path[1..];
    }
    path := StripApiPrefix(path);
    FlattenSpec(path);
    path := Flatten(path);
    ghost var flat := path;
    for k := 0 to |PathMappings|
      invariant path == flat
    {
      NoSlashReplaceFirst(PathMappings[k], path);
      path := ReplaceFirst(PathMappings[k], path);
    }
    NoSlashApplyMappings(PathMappings, flat);
    var methodLower := ToLower(httpMethod.GetOr("GET"));
    paths := [];
    paths := paths + [path + "." + methodLower + ".json"];
    paths := paths + [path + ".json"];
  }

  /* ---------------- properties of the normaliser ---------------- */

  /** The rewrite rules never fire on what the code hands them: flattening has
      already removed every `/` they need, so the base is the flattened path. */
  lemma MappingsInert(url: string)
    ensures '/' !in FlatBase(url) && '?' !in FlatBase(url)
    ensures ApplyMappings(PathMappings, FlatBase(url)) == FlatBase(url)
  {
    var q := BeforeQuery(url);
    var a := StripLeadingSlash(q);
    var b := StripApiPrefix(a);
    BeforeQuerySpec(url);
    StripApiPrefixSpec(a);
    FlattenSpec(b);
    NoSlashApplyMappings(PathMappings, FlatBase(url));
    forall i | 0 <= i < |b| ensures b[i] != '?' {
      assert b[i] == a[|a| - |b| + i];
      assert a[|a| - |b| + i] in q;
    }
  }

  /** Always two distinct names, the method-specific one first; the generic
      one is a flat file name with neither `/` nor `?`. */
  lemma CandidatesShape(url: string, httpMethod: Option<string>)
    ensures var cs := Candidates(url, httpMethod);
            |cs| == 2 && cs[0] != cs[1] && '/' !in cs[1] && '?' !in cs[1]
  {
    MappingsInert(url);
    var cs := Candidates(url, httpMethod);
    assert |cs[0]| > |cs[1]|;
  }

  lemma LowerGet()
    ensures ToLower("GET") == "get"
  {
    ToLowerSpec("GET");
    var r := ToLower("GET");
    assert r[0] == 'g' && r[1] == 'e' && r[2] == 't';
  }

  /** An omitted method is the same as GET. */
  lemma DefaultMethodIsGet(url: string)
    ensures Candidates(url, None) == Candidates(url, Some("GET"))
    ensures Candidates(url, None)[0] == FlatBase(url) + ".get.json"
  {
    LowerGet();
    GetSuffix(FlatBase(url));
  }

  lemma GetSuffix(b: string)
    ensures b + "." + "get" + ".json" == b + ".get.json"
  {
    assert "." + "get" + ".json" == ".get.json";
    assert b + "." + "get" + ".json" == b + ("." + "get" + ".json");
  }

  /** An empty path after stripping gives the degenerate names `.get.json` and
      `.json`. */
  lemma EmptyBase(url: string)
    requires StripApiPrefix(StripLeadingSlash(BeforeQuery(url))) == ""
    ensures Candidates(url, None) == [".get.json", ".json"]
  {
    DefaultMethodIsGet(url);
    assert FlatBase(url) == "";
    assert "" + ".get.json" == ".get.json" && "" + ".json" == ".json";
    var cs := Candidates(url, None);
    assert cs[0] == ".get.json" && cs[1] == ".json";
  }

  lemma NoQuery(s: string)
    requires '?' !in s
    ensures BeforeQuery(s) == s
  {
    BeforeQuerySpec(s);
  }

  /** The query string plays no part in the names. */
  lemma QueryIgnored(path: string, query: string, httpMethod: Option<string>)
    requires '?' !in path
    ensures Candidates(path + "?" + query, httpMethod) == Candidates(path, httpMethod)
  {
    var u := path + "?" + query;
    var r := BeforeQuery(u);
    BeforeQuerySpec(u);
    assert u[|path|] == '?';
    assert |r| == |path|;
    assert r == u[..|path|] == path;
    NoQuery(path);
  }

  /** The rewrite rules, as written, leave a numeric identifier in place:
      `GET /api/users/42` looks for `users-42.get.json`, not `users-_id.get.json`. */
  lemma NumericIdKept(u: string)
    requires u == "/api/users/42"
    ensures Candidates(u, Some("GET")) == ["users-42.get.json", "users-42.json"]
  {
    UsersBase(u);
    LowerGet();
    UsersNames();
    var cs := Candidates(u, Some("GET"));
    assert cs[0] == "users-42" + "." + "get" + ".json";
    assert cs[1] == "users-42" + ".json";
  }

  lemma UsersBase(u: string)
    requires u == "/api/users/42"
    ensures FlatBase(u) == "users-42"
  {
    assert '?' !in u;
    NoQuery(u);
    assert StripLeadingSlash(u) == "api/" + "users/42";
    StripApi("users/42");
    FlattenUsers();
  }

  lemma FlattenUsers()
    ensures Flatten("users/42") == "users-42"
  {
    FlattenSpec("users/42");
  }

  /** `api/` at the start is removed and nothing else. */
  lemma StripApi(rest: string)
    ensures StripApiPrefix("api/" + rest) == rest
  {
    var p := "api/" + rest;
    assert |p| < 8 || p[..8][0] != "dev-api/"[0];
    assert |p| < 9 || p[..9][0] != "prod-api/"[0];
    assert p[..4] == "api/";
  }

  lemma UsersNames()
    ensures "users-42" + "." + "get" + ".json" == "users-42.get.json"
    ensures "users-42" + ".json" == "users-42.json"
  {
  }

  /** A match at `k` with no `/` before it is the leftmost one. */
  lemma LeftmostMatch(m: Mapping, s: string, k: nat, len: nat)
    requires k < |s| && MatchAt(m, s, k) == Some(len)
    requires forall q :: 0 <= q < k ==> s[q] != '/'
    ensures FindMatch(m, s, 0) == Some((k, len))
  {
    var r := FindMatch(m, s, 0);
    assert r.Some?;
    assert r.value.0 <= k;
    assert r.value.0 >= k;
  }

  /** Applied to `p/_id` where `p` has no `/`, the other three rules find
      nothing and change nothing. (With a `/` in `p` the second rule may still
      rewrite inside `p`; `KeepsIdSuffix` covers that case.) */
  lemma IdSegmentStays(m: Mapping, p: string)
    requires '/' !in p && (m.token == Uuid36 || m.tail == BeforeSlash)
    ensures ReplaceFirst(m, p + "/_id") == p + "/_id"
  {
    var s := p + "/_id";
    forall q | 0 <= q < |s| ensures MatchAt(m, s, q).None? {
      if q < |p| {
        assert s[q] == p[q];
      } else if q == |p| {
        assert s[q + 1] == '_';
        if m.token == Digits {
          assert DigitRunEnd(s, q + 1) == q + 1;
        }
      }
    }
  }

  /** The first rule, `\/(\d+)$`, turns a trailing numeric segment into `/_id`,
      whatever comes before it: an earlier `/` starts a digit run that the
      final `/` ends, so it is never followed by the end of the string. */
  lemma TrailingIdMatched(p: string, d: string)
    requires d != [] && forall t :: 0 <= t < |d| ==> IsDigit(d[t])
    ensures ReplaceFirst(PathMappings[0], p + "/" + d) == p + "/_id"
  {
    var s := p + "/" + d;
    var k := |p|;
    var m := PathMappings[0];
    assert s[k] == '/';
    forall t | k + 1 <= t < |s| ensures IsDigit(s[t]) {
      assert s[t] == d[t - k - 1];
    }
    assert DigitRunEnd(s, k + 1) == |s|;
    assert MatchAt(m, s, k) == Some(|d| + 1);
    forall q | 0 <= q < k ensures MatchAt(m, s, q).None? {
      if s[q] == '/' {
        assert DigitRunEnd(s, q + 1) <= k;
      }
    }
    var r := FindMatch(m, s, 0);
    assert r.Some?;
    assert r.value.0 == k;
    assert s[..k] == p && s[k + |d| + 1..] == [];
  }

  /** What the rules were written for, on a path of two segments: `p/digits`
      with no `/` in `p` becomes exactly `p/_id`. The code never hands the
      rules such a path (see `MappingsInert`). */
  lemma RulesRewriteTrailingId(p: string, d: string)
    requires '/' !in p && d != [] && forall t :: 0 <= t < |d| ==> IsDigit(d[t])
    ensures ApplyMappings(PathMappings, p + "/" + d) == p + "/_id"
  {
    TrailingIdMatched(p, d);
    LaterRulesKeepId(p);
    UnchangedByEach(PathMappings[1..], p + "/_id");
  }

  /** The string ends in the segment `/_id`. */
  predicate EndsInId(s: string) {
    |s| >= 4 && s[|s| - 4..] == "/_id"
  }

  /** A rule that needs a `/` after its segment puts one back at the end of
      its replacement, as every rule of the configuration does. */
  predicate KeepsTrailingSlash(m: Mapping) {
    m.tail == BeforeSlash ==> m.replacement != [] && m.replacement[|m.replacement| - 1] == '/'
  }

  /** In a string ending in `/_id`, no rule can match up to the end, and a
      match ends at the latest with the `/` of that final segment. */
  lemma MatchBeforeIdSegment(m: Mapping, s: string, i: nat)
    requires EndsInId(s) && i < |s| && MatchAt(m, s, i).Some?
    ensures m.tail == BeforeSlash
    ensures i + MatchAt(m, s, i).value <= |s| - 3
  {
    var n := |s| - 4;
    assert s[n..][0] == '/' && s[n..][1] == '_' && s[n..][2] == 'i' && s[n..][3] == 'd';
    assert s[n] == '/' && s[n + 1] == '_' && s[n + 2] == 'i' && s[n + 3] == 'd';
    assert i <= n;
    if m.token == Digits && i < n {
      assert DigitRunEnd(s, i + 1) <= n;
    }
  }

  /** A rule that keeps its trailing `/` leaves a final `/_id` segment in place. */
  lemma KeepsIdSuffix(m: Mapping, s: string)
    requires EndsInId(s) && KeepsTrailingSlash(m)
    ensures EndsInId(ReplaceFirst(m, s))
  {
    match FindMatch(m, s, 0)
    case None =>
    case Some((i, len)) =>
      MatchBeforeIdSegment(m, s, i);
      var n := |s| - 4;
      var rest := s[i + len..];
      var r := s[..i] + m.replacement + rest;
      assert ReplaceFirst(m, s) == r;
      if i + len <= n {
        assert rest[|rest| - 4..] == s[n..];
        assert r[|r| - 4..] == rest[|rest| - 4..];
      } else {
        assert rest == s[n + 1..];
        assert r[|r| - 4..] == [m.replacement[|m.replacement| - 1]] + rest;
      }
  }

  /** The `forEach` over rules that keep their trailing `/` leaves a final
      `/_id` segment in place. */
  lemma {:induction false} IdSuffixSurvives(ms: seq<Mapping>, s: string)
    requires EndsInId(s)
    requires forall k :: 0 <= k < |ms| ==> KeepsTrailingSlash(ms[k])
    ensures EndsInId(ApplyMappings(ms, s))
    decreases |ms|
  {
    if ms != [] {
      KeepsIdSuffix(ms[0], s);
      assert forall k :: 0 <= k < |ms[1..]| ==> ms[1..][k] == ms[k + 1];
      IdSuffixSurvives(ms[1..], ReplaceFirst(ms[0], s));
    }
  }

  /** What the rules were written for, on any path: one that ends in a numeric
      segment comes out of the four rules ending in `/_id`, however many
      segments precede it. */
  lemma RulesEndInId(p: string, d: string)
    requires d != [] && forall t :: 0 <= t < |d| ==> IsDigit(d[t])
    ensures EndsInId(ApplyMappings(PathMappings, p + "/" + d))
  {
    TrailingIdMatched(p, d);
    var s := p + "/_id";
    assert s[|s| - 4..] == "/_id";
    LaterRulesKeepSlash();
    FirstRuleThenRest(p + "/" + d);
    IdSuffixSurvives(PathMappings[1..], s);
  }

  lemma LaterRulesKeepSlash()
    ensures forall k :: 0 <= k < |PathMappings[1..]| ==> KeepsTrailingSlash(PathMappings[1..][k])
  {
    assert PathMappings[1].replacement[4] == '/';
    assert PathMappings[3].replacement[6] == '/';
  }

  lemma FirstRuleThenRest(s: string)
    ensures ApplyMappings(PathMappings, s) == ApplyMappings(PathMappings[1..], ReplaceFirst(PathMappings[0], s))
  {
  }

  lemma LaterRulesKeepId(p: string)
    requires '/' !in p
    ensures forall k :: 0 <= k < |PathMappings[1..]| ==>
              ReplaceFirst(PathMappings[1..][k], p + "/_id") == p + "/_id"
  {
    IdSegmentStays(PathMappings[1], p);
    IdSegmentStays(PathMappings[2], p);
    IdSegmentStays(PathMappings[3], p);
  }

  /** A string every rule leaves alone comes out of the loop unchanged. */
  lemma {:induction false} UnchangedByEach(ms: seq<Mapping>, s: string)
    requires forall k :: 0 <= k < |ms| ==> ReplaceFirst(ms[k], s) == s
    ensures ApplyMappings(ms, s) == s
    decreases |ms|
  {
    if ms != [] {
      assert ReplaceFirst(ms[0], s) == s;
      assert forall k :: 0 <= k < |ms[1..]| ==> ms[1..][k] == ms[k + 1];
      UnchangedByEach(ms[1..], s);
    }
  }
}

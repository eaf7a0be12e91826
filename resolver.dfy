/** The fixture resolver, `readMockFile`: tries the candidate names in order
    and returns the first fixture that exists and parses. */
module Resolver {
  import opened Common

  /** What lies behind a name in the fixture root. A name that is not a key of
      the file system does not exist (`fs.existsSync` is false). */
  datatype Fixture =
    | Parsed(value: Json)   // read and parsed as JSON
    | Unreadable            // exists, but reading or `JSON.parse` throws

  /** The fixture root, keyed by the candidate name relative to it. */
  type FileSystem = map<string, Fixture>

  /** The object `readMockFile` returns on a hit: the parsed data and the
      candidate name it came from. */
  datatype MockFile = MockFile(data: Json, path: string)

  /** `readMockFile` accepts a single name or an array of names. */
  datatype MockPath = Single(name: string) | Many(names: seq<string>)

  /** `Array.isArray(mockPath) ? mockPath : [mockPath]` */
  function Names(arg: MockPath): seq<string> {
    match arg
    case Single(p) => [p]
    case Many(ps) => ps
  }

  /** The candidate `p` exists and parses. */
  predicate Parses(fs: FileSystem, p: string) {
    p in fs && fs[p].Parsed?
  }

  /** The first candidate, in list order, that exists and parses. */
  function FirstHit(fs: FileSystem, ps: seq<string>): Option<MockFile> {
    if ps == [] then None
    else if Parses(fs, ps[0]) then Some(MockFile(fs[ps[0]].value, ps[0]))
    else FirstHit(fs, ps[1..])
  }

  /** The candidates whose existence the loop checks: every one up to and
      including the first hit, or all of them when there is none. */
  function Probed(fs: FileSystem, ps: seq<string>): seq<string> {
    if ps == [] then []
    else if Parses(fs, ps[0]) then [ps[0]]
    else [ps[0]] + Probed(fs, ps[1..])
  }

  /** `readMockFile(mockPath)`: a `for...of` loop whose body returns on the
      first candidate that exists and parses; a read or parse failure is
      caught and the loop goes on. `probed` lists the candidates, in order,
      whose existence was checked. */
  method ReadMockFile(fs: FileSystem, mockPath: MockPath) returns (r: Option<MockFile>, probed: seq<string>)
    ensures r == FirstHit(fs, Names(mockPath))
    ensures probed == Probed(fs, Names(mockPath))
  {
    var paths := Names(mockPath);
    probed := [];
    for i := 0 to |paths|
      invariant FirstHit(fs, paths) == FirstHit(fs, paths[i..])
      invariant Probed(fs, paths) == probed + Probed(fs, paths[i..])
    {
      var p := paths[i];
      SearchStep(fs, paths, i);
      assert !Parses(fs, p) ==> probed + Probed(fs, paths[i..]) == (probed + [p]) + Probed(fs, paths[i + 1..]);
      probed := probed + [p];
      if p in fs {
        match fs[p]
        case Parsed(data) =>
          return Some(MockFile(data, p)), probed;
        case Unreadable =>
          // the catch block: logged, then the next candidate
      }
    }
    r := None;
  }

  /** One turn of the search at position `i`. */
  lemma SearchStep(fs: FileSystem, ps: seq<string>, i: nat)
    requires i < |ps|
    ensures Parses(fs, ps[i]) ==> FirstHit(fs, ps[i..]) == Some(MockFile(fs[ps[i]].value, ps[i]))
    ensures Parses(fs, ps[i]) ==> Probed(fs, ps[i..]) == [ps[i]]
    ensures !Parses(fs, ps[i]) ==> FirstHit(fs, ps[i..]) == FirstHit(fs, ps[i + 1..])
    ensures !Parses(fs, ps[i]) ==> Probed(fs, ps[i..]) == [ps[i]] + Probed(fs, ps[i + 1..])
  {
    assert ps[i..][0] == ps[i] && ps[i..][1..] == ps[i + 1..];
  }

  /* ---------------- properties of the resolver ---------------- */

  /** There is no hit exactly when no candidate both exists and parses. */
  lemma {:induction false} FirstHitNone(fs: FileSystem, ps: seq<string>)
    ensures FirstHit(fs, ps).None? <==> forall i :: 0 <= i < |ps| ==> !Parses(fs, ps[i])
  {
    if ps != [] {
      FirstHitNone(fs, ps[1..]);
      assert forall i :: 1 <= i < |ps| ==> ps[i] == ps[1..][i - 1];
    }
  }

  /** A hit is the first candidate that exists and parses, with its parsed
      data and its name as given (not a path joined to the fixture root). */
  lemma {:induction false} FirstHitIsFirst(fs: FileSystem, ps: seq<string>, i: nat)
    requires i < |ps| && Parses(fs, ps[i])
    requires forall j :: 0 <= j < i ==> !Parses(fs, ps[j])
    ensures FirstHit(fs, ps) == Some(MockFile(fs[ps[i]].value, ps[i]))
  {
    if i > 0 {
      FirstHitIsFirst(fs, ps[1..], i - 1);
    }
  }

  /** Every hit comes from some candidate that parses, with none before it. */
  lemma {:induction false} FirstHitSome(fs: FileSystem, ps: seq<string>)
    requires FirstHit(fs, ps).Some?
    ensures exists i :: 0 <= i < |ps| && ps[i] == FirstHit(fs, ps).value.path &&
                        Parses(fs, ps[i]) && fs[ps[i]] == Parsed(FirstHit(fs, ps).value.data) &&
                        forall j :: 0 <= j < i ==> !Parses(fs, ps[j])
  {
    if !Parses(fs, ps[0]) {
      FirstHitSome(fs, ps[1..]);
      var i :| 0 <= i < |ps[1..]| && ps[1..][i] == FirstHit(fs, ps[1..]).value.path &&
               Parses(fs, ps[1..][i]) && fs[ps[1..][i]] == Parsed(FirstHit(fs, ps[1..]).value.data) &&
               forall j :: 0 <= j < i ==> !Parses(fs, ps[1..][j]);
      assert ps[i + 1] == ps[1..][i];
      forall j | 0 <= j < i + 1 ensures !Parses(fs, ps[j]) {
        if j > 0 { assert ps[j] == ps[1..][j - 1]; }
      }
    } else {
      assert ps[0] == FirstHit(fs, ps).value.path;
    }
  }

  /** The search stops at the first hit: it checks a prefix of the candidates
      that ends at the hit, and all of them when there is none. */
  lemma {:induction false} ProbedStopsAtHit(fs: FileSystem, ps: seq<string>)
    ensures var pr := Probed(fs, ps);
            |pr| <= |ps| && pr == ps[..|pr|] &&
            (FirstHit(fs, ps).None? ==> pr == ps) &&
            (FirstHit(fs, ps).Some? ==> pr != [] && pr[|pr| - 1] == FirstHit(fs, ps).value.path)
  {
    if ps != [] && !Parses(fs, ps[0]) {
      ProbedStopsAtHit(fs, ps[1..]);
      assert ps == [ps[0]] + ps[1..];
    }
  }

  /** Candidates after the hit are never examined: what the fixture root holds
      under those names cannot change the result or the names checked. */
  lemma {:induction false} LaterCandidatesIgnored(fs: FileSystem, fs': FileSystem, ps: seq<string>, i: nat)
    requires i < |ps| && Parses(fs, ps[i])
    requires forall j :: 0 <= j <= i ==> (ps[j] in fs <==> ps[j] in fs') &&
                                          (ps[j] in fs ==> fs[ps[j]] == fs'[ps[j]])
    ensures FirstHit(fs', ps) == FirstHit(fs, ps)
    ensures Probed(fs', ps) == Probed(fs, ps)
  {
    if !Parses(fs, ps[0]) {
      LaterCandidatesIgnored(fs, fs', ps[1..], i - 1);
    }
  }

  /** The two-name lists the normaliser produces: a hit exactly when one of
      the two parses; the second is used, after both were checked, only when
      the first does not parse. */
  lemma TwoNames(fs: FileSystem, cs: seq<string>)
    requires |cs| == 2
    ensures FirstHit(fs, cs).Some? <==> Parses(fs, cs[0]) || Parses(fs, cs[1])
    ensures !Parses(fs, cs[0]) && Parses(fs, cs[1]) ==>
              FirstHit(fs, cs) == Some(MockFile(fs[cs[1]].value, cs[1])) && Probed(fs, cs) == cs
  {
    var rest := cs[1..];
    assert rest[0] == cs[1] && rest[1..] == [];
    assert FirstHit(fs, rest[1..]) == None && Probed(fs, rest[1..]) == [];
    assert cs == [cs[0]] + [cs[1]];
  }

  /** A single name behaves as a one-element list. */
  lemma SingleName(fs: FileSystem, p: string)
    ensures FirstHit(fs, Names(Single(p))) == FirstHit(fs, [p])
    ensures Parses(fs, p) ==> FirstHit(fs, [p]) == Some(MockFile(fs[p].value, p))
    ensures !Parses(fs, p) ==> FirstHit(fs, [p]) == None
  {
  }

  /** A candidate that exists but cannot be read or parsed does not stop the
      search: the answer is the same as if it did not exist at all. */
  lemma {:induction false} UnreadableSkipped(fs: FileSystem, ps: seq<string>, p: string)
    requires p in fs && fs[p] == Unreadable
    ensures FirstHit(fs, ps) == FirstHit(fs - {p}, ps)
  {
    if ps != [] {
      UnreadableSkipped(fs, ps[1..], p);
    }
  }
}

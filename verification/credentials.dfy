/**
 * Credential resolution, `getApiKey` (src/index.ts:21-43).
 *
 * The environment variable is an `Option<string>` (unset or set to a text),
 * and the filesystem is a map from a path to what reading it gives: the path
 * is missing, reading it throws, or it holds a text. Paths are lists of
 * components below the user's home directory.
 *
 * `Resolve` is the specification of the strategy chain; the method
 * `GetApiKey` is the loop of the source, proved to agree with it and to
 * consult the candidate paths in order, stopping at the first hit.
 */
module Credentials {
  import opened Wrappers
  import KeyPattern

  /** Components of a path below the user's home directory. */
  type Path = seq<string>

  /** What `existsSync` and `readFileSync(path, "utf-8")` give for one path. */
  datatype FileState = Missing | ReadError | Content(text: string)

  type FileSystem = map<Path, FileState>

  /** A path the map does not list does not exist. */
  function Lookup(fs: FileSystem, path: Path): FileState {
    if path in fs then fs[path] else Missing
  }

  /** The candidate files, in the order they are tried. */
  const CandidatePaths: seq<Path> := [
    ["Projects", "LLM-API-Key-Proxy", ".env"],
    [".firmware", "credentials"],
    [".config", "firmware", "api_key"]
  ]

  /** The JavaScript truthiness test on `process.env[...]`: set and non-empty. */
  predicate EnvSet(env: Option<string>) {
    env.Some? && env.value != ""
  }

  /** The key one file yields: a missing file or a failed read yields none. */
  function KeyInFile(st: FileState): (r: Option<string>)
    ensures r.Some? ==> st.Content? && KeyPattern.IsKey(r.value)
    ensures st.Content? ==> r == KeyPattern.Extract(st.text)
  {
    match st
    case Missing => None
    case ReadError => None
    case Content(text) => KeyPattern.Extract(text)
  }

  /** Try the paths in order from position i; the first file that yields a key decides. */
  function SearchFrom(fs: FileSystem, paths: seq<Path>, i: nat): (r: Option<string>)
    requires i <= |paths|
    ensures r.Some? ==> KeyPattern.IsKey(r.value)
    decreases |paths| - i
  {
    if i == |paths| then
      None
    else
      var found := KeyInFile(Lookup(fs, paths[i]));
      if found.Some? then found else SearchFrom(fs, paths, i + 1)
  }

  /** The search comes back empty exactly when no path from position i on yields a key. */
  lemma {:induction false} SearchEmptyIff(fs: FileSystem, paths: seq<Path>, i: nat)
    requires i <= |paths|
    ensures SearchFrom(fs, paths, i).None? <==> forall k | i <= k < |paths| :: KeyInFile(Lookup(fs, paths[k])).None?
    decreases |paths| - i
  {
    if i < |paths| {
      SearchEmptyIff(fs, paths, i + 1);
    }
  }

  /** The whole strategy chain: a set environment variable wins, else the file search. */
  function Resolve(env: Option<string>, fs: FileSystem): (r: Option<string>)
    ensures EnvSet(env) ==> r == env
    ensures r.Some? ==> r.value != ""
    ensures r.None? <==>
      !EnvSet(env) && forall i | 0 <= i < |CandidatePaths| :: KeyInFile(Lookup(fs, CandidatePaths[i])).None?
  {
    if EnvSet(env) then
      env
    else
      SearchEmptyIff(fs, CandidatePaths, 0);
      SearchFrom(fs, CandidatePaths, 0)
  }

  /**
   * The first path that yields a key determines the result, whatever the
   * later paths hold; the earlier ones (missing, unreadable, or without a
   * match) are passed over.
   */
  lemma {:induction false} FirstHitWins(fs: FileSystem, paths: seq<Path>, from: nat, i: nat)
    requires from <= i < |paths|
    requires forall k | from <= k < i :: KeyInFile(Lookup(fs, paths[k])).None?
    requires KeyInFile(Lookup(fs, paths[i])).Some?
    ensures SearchFrom(fs, paths, from) == KeyInFile(Lookup(fs, paths[i]))
    decreases i - from
  {
    if from < i {
      FirstHitWins(fs, paths, from + 1, i);
    }
  }

  /**
   * Paths after the first hit are never read: two filesystems that agree on
   * every path up to and including the first hit resolve to the same key.
   */
  lemma LaterPathsIrrelevant(env: Option<string>, fs: FileSystem, fs': FileSystem, i: nat)
    requires i < |CandidatePaths|
    requires forall k | 0 <= k <= i :: Lookup(fs, CandidatePaths[k]) == Lookup(fs', CandidatePaths[k])
    requires forall k | 0 <= k < i :: KeyInFile(Lookup(fs, CandidatePaths[k])).None?
    requires KeyInFile(Lookup(fs, CandidatePaths[i])).Some?
    ensures Resolve(env, fs) == Resolve(env, fs')
  {
    FirstHitWins(fs, CandidatePaths, 0, i);
    FirstHitWins(fs', CandidatePaths, 0, i);
  }

  /**
   * With the variable set, the filesystem plays no part, even when the
   * files hold keys of their own.
   */
  lemma EnvPrecedence(v: string, fs: FileSystem, fs': FileSystem)
    requires v != ""
    ensures Resolve(Some(v), fs) == Resolve(Some(v), fs') == Some(v)
  {
  }

  /**
   * An unset or empty variable, keys at the second and third path but not
   * at the first: the second path's key is the result.
   */
  lemma SecondPathBeforeThird(env: Option<string>, fs: FileSystem)
    requires !EnvSet(env)
    requires KeyInFile(Lookup(fs, CandidatePaths[0])).None?
    requires KeyInFile(Lookup(fs, CandidatePaths[1])).Some?
    requires KeyInFile(Lookup(fs, CandidatePaths[2])).Some?
    ensures Resolve(env, fs) == KeyInFile(Lookup(fs, CandidatePaths[1]))
  {
    FirstHitWins(fs, CandidatePaths, 0, 1);
  }

  /**
   * `getApiKey`. Besides the key, it returns the paths it consulted, in
   * the order it consulted them: none when the variable is set, otherwise a
   * prefix of the candidate list that ends at the first hit, or the whole
   * list when no file yields a key.
   */
  method GetApiKey(env: Option<string>, fs: FileSystem) returns (key: Option<string>, consulted: seq<Path>)
    ensures key == Resolve(env, fs)
    ensures EnvSet(env) ==> consulted == []
    ensures consulted <= CandidatePaths
    ensures forall k | 0 <= k < |consulted| - 1 :: KeyInFile(Lookup(fs, consulted[k])).None?
    ensures !EnvSet(env) && key.None? ==> consulted == CandidatePaths
    ensures !EnvSet(env) && key.Some? ==>
      consulted != [] && KeyInFile(Lookup(fs, consulted[|consulted| - 1])) == key
  {
    if EnvSet(env) {
      return env, [];
    }
    consulted := [];
    var i := 0;
    while i < |CandidatePaths|
      invariant 0 <= i <= |CandidatePaths|
      invariant consulted == CandidatePaths[..i]
      invariant forall k | 0 <= k < i :: KeyInFile(Lookup(fs, CandidatePaths[k])).None?
    {
      var path := CandidatePaths[i];
      consulted := consulted + [path];
      match Lookup(fs, path) {
        case Missing =>
        case ReadError =>
        case Content(text) =>
          var found := KeyPattern.Extract(text);
          if found.Some? {
            assert KeyInFile(Lookup(fs, CandidatePaths[i])) == found;
            FirstHitWins(fs, CandidatePaths, 0, i);
            assert consulted == CandidatePaths[..i + 1];
            return found, consulted;
          }
      }
      assert KeyInFile(Lookup(fs, CandidatePaths[i])).None?;
      i := i + 1;
    }
    assert consulted == CandidatePaths;
    return None, consulted;
  }
}

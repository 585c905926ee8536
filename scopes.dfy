/**
 * `Commit::Scope`: a directory named ".commit" that holds a project's
 * configuration, and the discovery of such directories below a root.
 */
module Scopes {
  import opened Values
  import opened Paths

  const CommitToolsDirectory := ".commit"
  const ConfigFile := "config.yml"
  const DataPath := "data"

  /** A scope: its ".commit" directory, where its configuration is read
      from and where its data files live, and its configuration settings,
      which the operations of a run update in place. */
  class Scope {
    const path: string
    const configPath: string
    const dataPath: string
    var settings: map<string, Value>

    /** `Scope.new(path:)`. The settings are those `Config.load` reads from
        "<path>/config.yml" (an empty hash when the file is absent); the
        loader is a parameter because it is not part of this model. */
    constructor (path: string, load: string -> map<string, Value>)
      ensures this.path == path
      ensures configPath == PathJoin(path, ConfigFile)
      ensures dataPath == PathJoin(path, DataPath)
      ensures settings == load(configPath)
    {
      this.path := path;
      configPath := PathJoin(path, ConfigFile);
      dataPath := PathJoin(path, DataPath);
      settings := load(PathJoin(path, ConfigFile));
    }
  }

  /** The elements of `s` that satisfy `p`, in their order (`select`). */
  function Filter<T>(s: seq<T>, p: T -> bool): (r: seq<T>)
    ensures |r| <= |s|
    ensures forall x :: x in r ==> x in s && p(x)
    ensures forall x :: x in s && p(x) ==> x in r
  {
    if s == [] then []
    else if p(s[0]) then [s[0]] + Filter(s[1..], p)
    else Filter(s[1..], p)
  }

  /** The path names a ".commit" entry (`basename.fnmatch?(".commit")`,
      a pattern without wildcards). */
  predicate IsCommitDirectory(path: string) {
    Basename(path) == CommitToolsDirectory
  }

  /** Some "/"-separated component of the directory holding `path`,
      whatever part of it came from the root, starts with a dot. */
  predicate InHiddenDirectory(path: string) {
    var parts := Split(Dirname(path));
    exists k :: 0 <= k < |parts| && parts[k] != [] && parts[k][0] == '.'
  }

  predicate OutsideHiddenDirectories(path: string) {
    !InHiddenDirectory(path)
  }

  /** Some component of the directory holding `path` is "tmp". */
  predicate InTmpDirectory(path: string) {
    var parts := Split(Dirname(path));
    exists k :: 0 <= k < |parts| && parts[k] == "tmp"
  }

  predicate OutsideTmpDirectories(path: string) {
    !InTmpDirectory(path)
  }

  /** `Scope.each`: the select / reject / reject pipeline over the paths the
      recursive glob below the root enumerates (the glob itself is not part
      of this model, its result is the input). */
  function Discover(candidates: seq<string>): (r: seq<string>)
    ensures |r| <= |candidates|
    ensures forall p :: p in r ==> p in candidates
    ensures forall p :: p in r ==> IsCommitDirectory(p)
    ensures forall p :: p in r ==> !InHiddenDirectory(p) && !InTmpDirectory(p)
    ensures forall p :: p in candidates ==>
      (p in r <==> IsCommitDirectory(p) && !InHiddenDirectory(p) && !InTmpDirectory(p))
  {
    var selected := Filter(candidates, IsCommitDirectory);
    var visible := Filter(selected, OutsideHiddenDirectories);
    Filter(visible, OutsideTmpDirectories)
  }

  lemma {:induction false} FilterAppend<T>(a: seq<T>, b: seq<T>, p: T -> bool)
    ensures Filter(a + b, p) == Filter(a, p) + Filter(b, p)
  {
    if a != [] {
      assert (a + b)[1..] == a[1..] + b;
      FilterAppend(a[1..], b, p);
    } else {
      assert a + b == b;
    }
  }

  /** Discovery keeps the enumeration order: the scopes found in a
      concatenation of candidate lists are those of the first list followed
      by those of the second. */
  lemma DiscoverKeepsOrder(a: seq<string>, b: seq<string>)
    ensures Discover(a + b) == Discover(a) + Discover(b)
  {
    FilterAppend(a, b, IsCommitDirectory);
    var sa := Filter(a, IsCommitDirectory);
    var sb := Filter(b, IsCommitDirectory);
    FilterAppend(sa, sb, OutsideHiddenDirectories);
    var va := Filter(sa, OutsideHiddenDirectories);
    var vb := Filter(sb, OutsideHiddenDirectories);
    FilterAppend(va, vb, OutsideTmpDirectories);
  }

  /** The `.map { new(path:) }` step: one fresh scope per discovered path,
      in order. */
  method Each(candidates: seq<string>, load: string -> map<string, Value>) returns (scopes: seq<Scope>)
    ensures |scopes| == |Discover(candidates)|
    ensures forall i :: 0 <= i < |scopes| ==> scopes[i].path == Discover(candidates)[i]
    ensures forall i :: 0 <= i < |scopes| ==>
      && scopes[i].configPath == PathJoin(Discover(candidates)[i], ConfigFile)
      && scopes[i].dataPath == PathJoin(Discover(candidates)[i], DataPath)
      && scopes[i].settings == load(PathJoin(Discover(candidates)[i], ConfigFile))
    ensures forall i :: 0 <= i < |scopes| ==> fresh(scopes[i])
  {
    scopes := NewScopes(Discover(candidates), load);
  }

  method NewScopes(paths: seq<string>, load: string -> map<string, Value>) returns (scopes: seq<Scope>)
    ensures |scopes| == |paths|
    ensures forall i :: 0 <= i < |scopes| ==> scopes[i].path == paths[i]
    ensures forall i :: 0 <= i < |scopes| ==>
      && scopes[i].configPath == PathJoin(paths[i], ConfigFile)
      && scopes[i].dataPath == PathJoin(paths[i], DataPath)
      && scopes[i].settings == load(PathJoin(paths[i], ConfigFile))
    ensures forall i :: 0 <= i < |scopes| ==> fresh(scopes[i])
  {
    scopes := [];
    var i := 0;
    while i < |paths|
      invariant 0 <= i <= |paths| && |scopes| == i
      invariant forall j :: 0 <= j < i ==> scopes[j].path == paths[j]
      invariant forall j :: 0 <= j < i ==>
        && scopes[j].configPath == PathJoin(paths[j], ConfigFile)
        && scopes[j].dataPath == PathJoin(paths[j], DataPath)
        && scopes[j].settings == load(PathJoin(paths[j], ConfigFile))
      invariant forall j :: 0 <= j < i ==> fresh(scopes[j])
    {
      var s := new Scope(paths[i], load);
      scopes := scopes + [s];
      i := i + 1;
    }
  }
}

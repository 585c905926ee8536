/**
 * The path functions of Ruby's File and Pathname classes that the core uses
 * (basename, extname, dirname, join, split on "/"), on POSIX paths.
 */
module Paths {
  import opened Values

  /** The position of the last `c` in `s`, if any. */
  function LastIndexOf(s: string, c: char): (r: Option<nat>)
    ensures r.None? ==> c !in s
    ensures r.Some? ==> r.value < |s| && s[r.value] == c
    ensures r.Some? ==> forall j :: r.value < j < |s| ==> s[j] != c
  {
    if s == [] then None
    else if s[|s| - 1] == c then Some(|s| - 1)
    else
      var r := LastIndexOf(s[..|s| - 1], c);
      assert forall j :: 0 <= j < |s| - 1 ==> s[..|s| - 1][j] == s[j];
      r
  }

  /** The position of the first `c` in `s`, if any. */
  function FirstIndexOf(s: string, c: char): (r: Option<nat>)
    ensures r.None? ==> c !in s
    ensures r.Some? ==> r.value < |s| && s[r.value] == c && c !in s[..r.value]
  {
    if s == [] then None
    else if s[0] == c then Some(0)
    else
      match FirstIndexOf(s[1..], c)
      case None => None
      case Some(i) => assert s[..i + 1] == [s[0]] + s[1..][..i]; Some(i + 1)
  }

  /** `p` without its trailing slashes. */
  function StripTrailingSlashes(p: string): (r: string)
    ensures |r| <= |p| && r == p[..|r|]
    ensures r == [] || r[|r| - 1] != '/'
    ensures forall j :: |r| <= j < |p| ==> p[j] == '/'
  {
    if p != [] && p[|p| - 1] == '/' then
      var r := StripTrailingSlashes(p[..|p| - 1]);
      assert p[..|p| - 1][..|r|] == p[..|r|];
      r
    else p
  }

  /** `File.basename(p)`: the last component, ignoring trailing slashes;
      "/" for a path made only of slashes. */
  function Basename(p: string): (r: string)
    ensures p != [] ==> r != []
    ensures '/' in r ==> r == "/"
  {
    var q := StripTrailingSlashes(p);
    if q == [] then (if p == [] then [] else "/")
    else
      match LastIndexOf(q, '/')
      case None => q
      case Some(i) =>
        q[i + 1..]
  }

  /** The number of leading dots of `b`. */
  function LeadingDots(b: string): (n: nat)
    ensures n <= |b|
    ensures forall j :: 0 <= j < n ==> b[j] == '.'
    ensures n < |b| ==> b[n] != '.'
  {
    if b != [] && b[0] == '.' then 1 + LeadingDots(b[1..]) else 0
  }

  /** `File.extname(p)`: from the last dot of the last component to its end,
      not counting the dots a name starts with, so ".bashrc" has none and
      "notes." has ".". */
  function Extname(p: string): (r: string)
    ensures |r| <= |Basename(p)|
    ensures r == Basename(p)[|Basename(p)| - |r|..]
    ensures r != [] ==> r[0] == '.' && '.' !in r[1..]
    ensures r == [] <==> '.' !in Basename(p)[LeadingDots(Basename(p))..]
  {
    ExtensionOf(Basename(p))
  }

  /** The extension of one path component `b`. */
  function ExtensionOf(b: string): (r: string)
    ensures |r| <= |b|
    ensures r == b[|b| - |r|..]
    ensures r != [] ==> r[0] == '.' && '.' !in r[1..]
    ensures r == [] <==> '.' !in b[LeadingDots(b)..]
  {
    var k := LeadingDots(b);
    match LastIndexOf(b[k..], '.')
    case None => []
    case Some(i) =>
      assert b[k..][i..] == b[k + i..];
      assert b[k + i..][1..] == b[k..][i + 1..];
      b[k + i..]
  }

  /** `File.basename(p, File.extname(p))`: the last component with its last
      extension removed. */
  function BasenameWithoutExt(p: string): (r: string)
    ensures r + Extname(p) == Basename(p)
  {
    var b := Basename(p);
    SuffixSplits(b, Extname(p));
    b[..|b| - |Extname(p)|]
  }

  lemma SuffixSplits(b: string, e: string)
    requires |e| <= |b| && e == b[|b| - |e|..]
    ensures b[..|b| - |e|] + e == b
  {
  }

  /** `File.join(dir, name)`: one slash between the two parts. */
  function FileJoin(dir: string, name: string): string {
    if dir != [] && dir[|dir| - 1] == '/' then
      (if name != [] && name[0] == '/' then dir + name[1..] else dir + name)
    else if name != [] && name[0] == '/' then dir + name
    else dir + "/" + name
  }

  /** `Pathname#join(dir, rel)`: an absolute `rel` replaces `dir`. The
      clean-up of "." and ".." components that Pathname also performs is
      not modelled; the textual path names the same file. */
  function PathJoin(dir: string, rel: string): (r: string)
    ensures rel != [] && rel[0] == '/' ==> r == rel
    ensures !(rel != [] && rel[0] == '/') && dir != [] && dir[|dir| - 1] == '/' ==> r == dir + rel
    ensures !(rel != [] && rel[0] == '/') && !(dir != [] && dir[|dir| - 1] == '/') ==> r == dir + "/" + rel
  {
    if rel != [] && rel[0] == '/' then rel
    else if dir != [] && dir[|dir| - 1] == '/' then dir + rel
    else dir + "/" + rel
  }

  /** `File.dirname(p)`: everything before the last component, "." when
      there is no slash, "/" when only the root is left. */
  function Dirname(p: string): (r: string)
    ensures r != []
    ensures '/' !in p ==> r == "."
  {
    var q := StripTrailingSlashes(p);
    if q == [] then (if p == [] then "." else "/")
    else
      match LastIndexOf(q, '/')
      case None => "."
      case Some(i) =>
        var d := StripTrailingSlashes(q[..i]);
        if d == [] then "/" else d
  }

  /** `s.split("/")` before Ruby drops the trailing empty strings: every
      piece between two slashes, empty ones included. */
  function SplitAll(s: string): (parts: seq<string>)
    ensures |parts| >= 1
    ensures forall k :: 0 <= k < |parts| ==> '/' !in parts[k]
  {
    match FirstIndexOf(s, '/')
    case None => [s]
    case Some(i) => [s[..i]] + SplitAll(s[i + 1..])
  }

  /** `parts` without its trailing empty strings. */
  function DropTrailingEmpty(parts: seq<string>): (r: seq<string>)
    ensures |r| <= |parts| && r == parts[..|r|]
    ensures forall k :: |r| <= k < |parts| ==> parts[k] == []
  {
    if parts != [] && parts[|parts| - 1] == [] then
      var r := DropTrailingEmpty(parts[..|parts| - 1]);
      assert parts[..|parts| - 1][..|r|] == parts[..|r|];
      r
    else parts
  }

  /** Ruby's `s.split("/")`. */
  function Split(s: string): (parts: seq<string>)
    ensures forall k :: 0 <= k < |parts| ==> '/' !in parts[k]
  {
    DropTrailingEmpty(SplitAll(s))
  }

  /** `parts.join("/")`. */
  function JoinSlash(parts: seq<string>): string
    decreases |parts|
  {
    if parts == [] then []
    else if |parts| == 1 then parts[0]
    else JoinSlash(parts[..|parts| - 1]) + "/" + parts[|parts| - 1]
  }

  /** Joining a first piece onto the join of the rest. */
  lemma {:induction false} JoinSlashCons(first: string, rest: seq<string>)
    requires rest != []
    ensures JoinSlash([first] + rest) == first + "/" + JoinSlash(rest)
    decreases |rest|
  {
    var parts := [first] + rest;
    assert parts[..|parts| - 1] == [first] + rest[..|rest| - 1];
    if |rest| > 1 {
      JoinSlashCons(first, rest[..|rest| - 1]);
    } else {
      assert parts[..|parts| - 1] == [first];
    }
  }

  /** Every piece between two slashes, joined again, is the string. */
  lemma {:induction false} SplitAllRejoins(s: string)
    ensures JoinSlash(SplitAll(s)) == s
    decreases |s|
  {
    match FirstIndexOf(s, '/')
    case None =>
    case Some(i) =>
      SplitAllRejoins(s[i + 1..]);
      JoinSlashCons(s[..i], SplitAll(s[i + 1..]));
      assert s == s[..i] + "/" + s[i + 1..];
  }

  /** Dropping trailing empty pieces drops the trailing slashes of the
      join. */
  lemma {:induction false} DropTrailingEmptyRejoins(parts: seq<string>)
    requires parts != []
    requires forall k :: 0 <= k < |parts| ==> '/' !in parts[k]
    ensures JoinSlash(DropTrailingEmpty(parts)) == StripTrailingSlashes(JoinSlash(parts))
    decreases |parts|
  {
    var last := parts[|parts| - 1];
    if last == [] {
      if |parts| == 1 {
        assert parts[..0] == [];
      } else {
        var init := parts[..|parts| - 1];
        DropTrailingEmptyRejoins(init);
        var j := JoinSlash(init);
        assert JoinSlash(parts) == j + "/";
        assert (j + "/")[..|j + "/"| - 1] == j;
      }
    } else {
      var j := JoinSlash(parts);
      if |parts| > 1 {
        assert j == JoinSlash(parts[..|parts| - 1]) + "/" + last;
      }
      assert j[|j| - 1] == last[|last| - 1];
      assert last[|last| - 1] != '/' by {
        assert last[|last| - 1] in last;
      }
    }
  }

  /** `split("/")` joined again with "/" is the string without its trailing
      slashes: only those are lost. */
  lemma SplitRejoins(s: string)
    ensures JoinSlash(Split(s)) == StripTrailingSlashes(s)
  {
    SplitAllRejoins(s);
    DropTrailingEmptyRejoins(SplitAll(s));
  }

  /** The directory part of `head/name` is `head` without its trailing
      slashes, unless nothing but the root is left. */
  lemma DirnameAfterSlash(head: string, name: string)
    requires name != [] && '/' !in name
    requires StripTrailingSlashes(head) != []
    ensures Dirname(head + "/" + name) == StripTrailingSlashes(head)
  {
    var p := head + "/" + name;
    LastSlashBeforeName(head, name);
    assert p[..|head|] == head;
  }

  /** In `head/name` the last slash is the one before `name`, and there is
      no trailing slash. */
  lemma LastSlashBeforeName(head: string, name: string)
    requires name != [] && '/' !in name
    ensures StripTrailingSlashes(head + "/" + name) == head + "/" + name
    ensures LastIndexOf(head + "/" + name, '/') == Some(|head|)
  {
    var p := head + "/" + name;
    var i := |head|;
    assert p[|p| - 1] == name[|name| - 1];
    NoTrailingSlash(p);
    assert p[i] == '/';
    forall k | i < k < |p| ensures p[k] != '/' {
      assert p[k] == name[k - i - 1];
    }
    LastIndexAt(p, '/', i);
  }

  /** A path that does not end in a slash has none to strip. */
  lemma NoTrailingSlash(p: string)
    requires p != [] && p[|p| - 1] != '/'
    ensures StripTrailingSlashes(p) == p
  {
  }

  /** A `c` at `i` with none after it is the last `c`. */
  lemma LastIndexAt(s: string, c: char, i: nat)
    requires i < |s| && s[i] == c
    requires forall k :: i < k < |s| ==> s[k] != c
    ensures LastIndexOf(s, c) == Some(i)
  {
    var j := LastIndexOf(s, c);
    assert c in s by {
      assert s[i] == c;
    }
  }

  /** Joining a plain name onto a directory and splitting the result again
      gives back the directory (without trailing slashes) and the name. */
  lemma JoinThenSplit(dir: string, name: string)
    requires name != [] && '/' !in name
    requires StripTrailingSlashes(dir) != []
    ensures Dirname(PathJoin(dir, name)) == StripTrailingSlashes(dir)
    ensures Basename(PathJoin(dir, name)) == name
  {
    if dir[|dir| - 1] == '/' {
      var head := dir[..|dir| - 1];
      assert dir == head + "/";
      assert PathJoin(dir, name) == head + "/" + name;
      assert StripTrailingSlashes(head) == StripTrailingSlashes(dir);
      DirnameAfterSlash(head, name);
      BasenameAfterSlash(head, name);
    } else {
      DirnameAfterSlash(dir, name);
      BasenameAfterSlash(dir, name);
    }
  }

  /** Joining a plain file name onto a directory gives back that name as the
      basename of the result. */
  lemma {:induction false} BasenameOfFileJoin(dir: string, name: string)
    requires name != [] && '/' !in name
    ensures Basename(FileJoin(dir, name)) == name
  {
    if dir != [] && dir[|dir| - 1] == '/' {
      var head := dir[..|dir| - 1];
      assert dir == head + "/";
      assert FileJoin(dir, name) == head + "/" + name;
      BasenameAfterSlash(head, name);
    } else {
      BasenameAfterSlash(dir, name);
    }
  }

  /** The last component of `head/name` is `name`. */
  lemma BasenameAfterSlash(head: string, name: string)
    requires name != [] && '/' !in name
    ensures Basename(head + "/" + name) == name
  {
    var p := head + "/" + name;
    var i := |head|;
    assert p[|p| - 1] == name[|name| - 1];
    assert StripTrailingSlashes(p) == p;
    assert p[i] == '/';
    assert forall k :: i < k < |p| ==> p[k] == name[k - i - 1];
    var j := LastIndexOf(p, '/');
    assert j.Some? && j.value == i;
    assert p[i + 1..] == name;
  }

  /** A dot-file such as ".bashrc" has an empty extension. */
  lemma {:induction false} DotfileHasNoExtension(name: string)
    requires name != [] && '.' !in name && '/' !in name
    ensures Extname("." + name) == []
    ensures BasenameWithoutExt("." + name) == "." + name
  {
    var p := "." + name;
    assert StripTrailingSlashes(p) == p;
    assert '/' !in p;
    assert LastIndexOf(p, '/').None?;
    assert Basename(p) == p;
    assert LeadingDots(p) == 1 + LeadingDots(name);
    assert LeadingDots(name) == 0;
    assert p[1..] == name;
  }

  /** `File.join` keeps the directory as a prefix. */
  lemma FileJoinExtendsDirectory(dir: string, name: string)
    ensures |dir| <= |FileJoin(dir, name)| && FileJoin(dir, name)[..|dir|] == dir
  {
    var out := FileJoin(dir, name);
    if dir != [] && dir[|dir| - 1] == '/' {
      if name != [] && name[0] == '/' {
        assert out == dir + name[1..];
      } else {
        assert out == dir + name;
      }
    } else if name != [] && name[0] == '/' {
      assert out == dir + name;
    } else {
      assert out == dir + "/" + name;
    }
  }
}

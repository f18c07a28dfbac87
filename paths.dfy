/**
  pathlib's POSIX paths as sequences of parts, and the file system the
  front ends look at, as an abstract snapshot.  Path strings go through
  `Parse` (what `Path(s)` does) and come back through `Render` (what
  `str(path)` does); `Join` is the `/` operator.
*/
module Paths {
  import opened Text
  import opened Outcomes

  /** `Path(s).parts`: the root "/" first for an absolute path, then the components. */
  type Parts = seq<string>

  const Root: string := "/"

  /** The repository's layout, relative to the working directory: voices are read here... */
  const VoicesDir: Parts := ["voices"]
  /** ...results are written here... */
  const OutputsDir: Parts := ["outputs"]
  /** ...and a voice directory's joined samples carry this name. */
  const CombinedName: string := "combined.wav"

  /** A component of a parsed path: never empty, never ".", never holding a separator. */
  predicate IsComponent(c: string) {
    c != [] && c != "." && '/' !in c
  }

  /** Parts as pathlib builds them: the root only in front, components elsewhere. */
  predicate WellFormed(p: Parts) {
    forall i :: 0 <= i < |p| ==> IsComponent(p[i]) || (i == 0 && p[i] == Root)
  }

  predicate IsAbsolute(p: Parts) {
    |p| >= 1 && p[0] == Root
  }

  /** Index of the first '/' in `s`, or `|s|`. */
  function SegmentEnd(s: string): (k: nat)
    ensures k <= |s| && '/' !in s[..k] && (k < |s| ==> s[k] == '/')
  {
    if s == [] || s[0] == '/' then 0
    else
      var k := 1 + SegmentEnd(s[1..]);
      assert s[..k] == [s[0]] + s[1..][..k - 1];
      k
  }

  /** The components of a relative path string: empty and "." segments are dropped. */
  function Components(s: string): (r: Parts)
    ensures forall i :: 0 <= i < |r| ==> IsComponent(r[i])
    decreases |s|
  {
    if s == [] then []
    else
      var k := SegmentEnd(s);
      var seg := s[..k];
      var rest := if k < |s| then s[k + 1..] else [];
      (if seg == [] || seg == "." then [] else [seg]) + Components(rest)
  }

  /** `Path(s).parts` on POSIX (a leading "//" is read as "/"). */
  function Parse(s: string): (p: Parts)
    ensures WellFormed(p)
  {
    if s != [] && s[0] == '/' then [Root] + Components(s[1..]) else Components(s)
  }

  /** The components joined by single slashes. */
  function JoinSlash(ps: Parts): string {
    if ps == [] then []
    else if |ps| == 1 then ps[0]
    else ps[0] + "/" + JoinSlash(ps[1..])
  }

  /** `str(path)`: "." for the empty path, a leading "/" for an absolute one. */
  function Render(p: Parts): string {
    if p == [] then "."
    else if p[0] == Root then "/" + JoinSlash(p[1..])
    else JoinSlash(p)
  }

  lemma {:induction false} SegmentEndOf(c: string, t: string)
    requires '/' !in c && (t == [] || t[0] == '/')
    ensures SegmentEnd(c + t) == |c|
  {
    if c != [] {
      assert (c + t)[1..] == c[1..] + t;
      SegmentEndOf(c[1..], t);
    } else {
      assert c + t == t;
    }
  }

  /** Splitting a component followed by a separator and more text takes the component off the front. */
  lemma ComponentsCons(c: string, rest: string)
    requires IsComponent(c)
    ensures Components(c + ("/" + rest)) == [c] + Components(rest)
  {
    var s := c + ("/" + rest);
    SegmentEndOf(c, "/" + rest);
    assert s != [] && |c| < |s|;
    assert s[..|c|] == c;
    assert s[|c| + 1..] == rest;
    assert Components(s) == [s[..|c|]] + Components(s[|c| + 1..]);
  }

  /** Splitting a single component gives that component. */
  lemma ComponentsOne(c: string)
    requires IsComponent(c)
    ensures Components(c) == [c]
  {
    SegmentEndOf(c, []);
    assert c + [] == c;
    assert c[..|c|] == c;
    assert c[0] in c;
  }

  lemma {:induction false} ComponentsOfJoin(ps: Parts)
    requires forall i :: 0 <= i < |ps| ==> IsComponent(ps[i])
    ensures Components(JoinSlash(ps)) == ps
  {
    if |ps| == 1 {
      ComponentsOne(ps[0]);
    } else if |ps| > 1 {
      var tail := ps[1..];
      assert forall i :: 0 <= i < |tail| ==> IsComponent(tail[i]) by {
        forall i | 0 <= i < |tail| ensures IsComponent(tail[i]) {
          assert tail[i] == ps[i + 1];
        }
      }
      assert JoinSlash(ps) == ps[0] + ("/" + JoinSlash(tail));
      assert IsComponent(ps[0]);
      ComponentsCons(ps[0], JoinSlash(tail));
      ComponentsOfJoin(tail);
      assert ps == [ps[0]] + tail;
    }
  }

  /** An absolute path prints as "/" and its components, which parse back. */
  lemma ParseRenderAbsolute(p: Parts)
    requires WellFormed(p) && IsAbsolute(p)
    ensures Parse(Render(p)) == p
  {
    var tail := p[1..];
    assert forall i :: 0 <= i < |tail| ==> IsComponent(tail[i]) by {
      forall i | 0 <= i < |tail| ensures IsComponent(tail[i]) {
        assert tail[i] == p[i + 1];
      }
    }
    ComponentsOfJoin(tail);
    var s := "/" + JoinSlash(tail);
    assert Render(p) == s;
    assert s[1..] == JoinSlash(tail);
    assert Parse(s) == [Root] + Components(s[1..]);
    assert p == [Root] + tail;
  }

  /** A joined path starts with its first component's first character. */
  lemma JoinSlashStart(ps: Parts)
    requires ps != [] && ps[0] != []
    ensures JoinSlash(ps) != [] && JoinSlash(ps)[0] == ps[0][0]
  {
    if |ps| > 1 {
      assert JoinSlash(ps) == ps[0] + ("/" + JoinSlash(ps[1..]));
    }
  }

  /** A relative path prints as its components, and the first does not start with "/". */
  lemma ParseRenderRelative(p: Parts)
    requires WellFormed(p) && p != [] && p[0] != Root
    ensures Parse(Render(p)) == p
  {
    assert IsComponent(p[0]);
    JoinSlashStart(p);
    assert p[0][0] in p[0];
    assert Parse(JoinSlash(p)) == Components(JoinSlash(p));
    ComponentsOfJoin(p);
  }

  /** Parsing what `str()` printed gives the same path back. */
  lemma ParseRender(p: Parts)
    requires WellFormed(p)
    ensures Parse(Render(p)) == p
  {
    if p == [] {
      assert Render(p) == ".";
      assert Components(".") == [];
    } else if p[0] == Root {
      ParseRenderAbsolute(p);
    } else {
      ParseRenderRelative(p);
    }
  }

  /** A string without separators, other than "" and ".", is a path of one part. */
  lemma ParseComponent(c: string)
    requires IsComponent(c)
    ensures Parse(c) == [c]
  {
    ComponentsOne(c);
    assert c[0] in c;
  }

  /**
    `a / b`: an absolute right-hand side replaces the left-hand side, and
    the joined path is named after the right-hand side.
  */
  function Join(a: Parts, b: Parts): (r: Parts)
    ensures IsAbsolute(b) ==> r == b
    ensures b != [] ==> Name(r) == Name(b)
  {
    if IsAbsolute(b) then b else a + b
  }

  /** Joining a non-empty relative path stays inside the left-hand side. */
  lemma JoinStaysWithin(a: Parts, b: Parts)
    requires a != [] && b != [] && !IsAbsolute(b)
    ensures Within(Join(a, b), a) && Join(a, b) != a
  {
    assert (a + b)[..|a|] == a;
    WithinIffPrefix(a + b, a);
  }

  /** `dir / name` for a string `name`. */
  function Child(dir: Parts, name: string): Parts {
    Join(dir, Parse(name))
  }

  lemma ChildOfComponent(dir: Parts, c: string)
    requires IsComponent(c)
    ensures Child(dir, c) == dir + [c]
  {
    ParseComponent(c);
  }

  /** `dir / "combined.wav"` appends one part. */
  lemma CombinedChild(dir: Parts)
    ensures Child(dir, CombinedName) == dir + ["combined.wav"]
  {
    ChildOfComponent(dir, CombinedName);
  }

  lemma JoinWellFormed(a: Parts, b: Parts)
    requires WellFormed(a) && WellFormed(b)
    ensures WellFormed(Join(a, b))
  {
    if !IsAbsolute(b) {
      var r := a + b;
      forall i | 0 <= i < |r| ensures IsComponent(r[i]) || (i == 0 && r[i] == Root) {
        if i >= |a| {
          assert r[i] == b[i - |a|];
          assert b[i - |a|] != Root || i - |a| != 0;
        }
      }
    }
  }

  /** `path.name`: the last component, "" for the empty path and for the root. */
  function Name(p: Parts): string {
    if p == [] || p == [Root] then "" else p[|p| - 1]
  }

  /** `path.parent`: the path without its last component; the root and "." are their own parents. */
  function Parent(p: Parts): Parts {
    if p == [] || p == [Root] then p else p[..|p| - 1]
  }

  /** `name.rfind('.')`. */
  function LastDot(name: string): (i: int)
    ensures -1 <= i < |name|
    ensures i >= 0 ==> name[i] == '.'
    ensures forall j :: i < j < |name| ==> name[j] != '.'
  {
    if name == [] then -1
    else if name[|name| - 1] == '.' then |name| - 1
    else LastDot(name[..|name| - 1])
  }

  /**
    `path.suffix` for a name: from the last dot, unless that dot is first or
    last; so either nothing, or a proper ending of the name that starts with
    its only dot.
  */
  function Suffix(name: string): (r: string)
    ensures r == "" || (2 <= |r| < |name| && r[0] == '.' && EndsWith(name, r))
    ensures forall j :: 1 <= j < |r| ==> r[j] != '.'
  {
    var i := LastDot(name);
    if 0 < i < |name| - 1 then
      var r := name[i..];
      assert forall j :: 1 <= j < |r| ==> r[j] == name[i + j];
      r
    else ""
  }

  /** The name without its suffix. */
  function Stem(name: string): (s: string)
    ensures s + Suffix(name) == name
  {
    var i := LastDot(name);
    if 0 < i < |name| - 1 then (assert name[..i] + name[i..] == name; name[..i]) else name
  }

  /** A `.wav` suffix means a name that ends in ".wav" and is longer than that. */
  lemma WavSuffix(name: string)
    ensures Suffix(name) == ".wav" <==> EndsWith(name, ".wav") && |name| > 4
  {
    var n := |name|;
    if EndsWith(name, ".wav") && n > 4 {
      assert name[n - 4..] == ".wav";
      assert name[n - 1] == 'v' && name[n - 2] == 'a' && name[n - 3] == 'w' && name[n - 4] == '.';
      assert name[..n - 1][..n - 2] == name[..n - 2];
      assert name[..n - 2][..n - 3] == name[..n - 3];
      assert LastDot(name) == n - 4;
    }
    if Suffix(name) == ".wav" {
      assert name[LastDot(name)..] == ".wav";
    }
  }

  /** `path.with_suffix(suffix)` for a valid suffix; `None` is the ValueError for an empty name. */
  function WithSuffix(p: Parts, suffix: string): (r: Option<Parts>)
    requires |suffix| >= 2 && suffix[0] == '.' && '/' !in suffix
    ensures r.Some? <==> Name(p) != ""
    ensures r.Some? ==> Parent(r.value) == Parent(p) && Name(r.value) == Stem(Name(p)) + suffix
    ensures r.Some? && WellFormed(p) ==> WellFormed(r.value)
  {
    var n := Name(p);
    if n == [] then None
    else
      var q := p[..|p| - 1] + [Stem(n) + suffix];
      assert q[..|q| - 1] == p[..|p| - 1];
      assert WellFormed(p) ==> WellFormed(q) by {
        if WellFormed(p) {
          StemComponent(n, suffix);
          WellFormedChild(p[..|p| - 1], Stem(n) + suffix);
        }
      }
      Some(q)
  }

  /** Replacing a component's suffix by a valid one gives a component. */
  lemma StemComponent(n: string, suffix: string)
    requires IsComponent(n) && |suffix| >= 2 && '/' !in suffix
    ensures IsComponent(Stem(n) + suffix)
  {
    var stem := Stem(n);
    assert stem == n[..|stem|];
    forall j | 0 <= j < |stem| ensures stem[j] != '/' {
      assert stem[j] == n[j];
    }
  }

  /** Appending a component keeps a path well formed. */
  lemma WellFormedChild(dir: Parts, name: string)
    requires WellFormed(dir) && IsComponent(name)
    ensures WellFormed(dir + [name])
  {
    var p := dir + [name];
    forall i | 0 <= i < |p| ensures IsComponent(p[i]) || (i == 0 && p[i] == Root) {
      if i < |dir| { assert p[i] == dir[i]; }
    }
  }

  /** `Path.parents`: the logical ancestors, nearest first; the root and "." have none. */
  function Parents(p: Parts): seq<Parts> {
    if p == [] || p == [Root] then [] else [p[..|p| - 1]] + Parents(p[..|p| - 1])
  }

  /** `child.is_relative_to(parent)` as Python 3.12 defines it: equal, or one of its parents. */
  predicate Within(child: Parts, parent: Parts) {
    child == parent || parent in Parents(child)
  }

  predicate IsPrefix(a: Parts, b: Parts) {
    |a| <= |b| && b[..|a|] == a
  }

  lemma {:induction false} ParentsArePrefixes(p: Parts, q: Parts)
    requires q in Parents(p)
    ensures IsPrefix(q, p) && |q| < |p|
    decreases |p|
  {
    var up := p[..|p| - 1];
    if q != up {
      ParentsArePrefixes(up, q);
    }
  }

  lemma {:induction false} PrefixesAreParents(p: Parts, q: Parts)
    requires q != [] && IsPrefix(q, p) && |q| < |p|
    requires q[0] == Root ==> p[0] == Root
    ensures q in Parents(p)
    decreases |p|
  {
    var up := p[..|p| - 1];
    if |q| < |up| {
      assert up[..|q|] == q;
      PrefixesAreParents(up, q);
    } else {
      assert q == up;
    }
  }

  /** Containment is a prefix test on parts, for a non-empty allowed parent. */
  lemma WithinIffPrefix(child: Parts, parent: Parts)
    requires parent != []
    ensures Within(child, parent) <==> IsPrefix(parent, child)
  {
    if parent in Parents(child) {
      ParentsArePrefixes(child, parent);
    }
    if IsPrefix(parent, child) && child != parent {
      assert child[..|child|] == child;
      PrefixesAreParents(child, parent);
    }
  }

  /** Containment is transitive: a path inside a subdirectory is inside the directory. */
  lemma WithinTransitive(a: Parts, b: Parts, c: Parts)
    requires b != [] && c != []
    requires Within(a, b) && Within(b, c)
    ensures Within(a, c)
  {
    WithinIffPrefix(a, b);
    WithinIffPrefix(b, c);
    assert a[..|c|] == a[..|b|][..|c|];
    WithinIffPrefix(a, c);
  }

  /** What `Path(p).resolve()` does: an absolute path, or the error it raises (e.g. a symlink loop). */
  datatype Resolution = Resolved(path: Parts) | ResolveError

  /**
    A snapshot of the file system as the scripts see it.  `present` is
    pathlib's `Path(p).exists()` on parts (see `OsPathExists` for
    `os.path.exists` on a string), `isDir` is `Path(p).is_dir()`, `listing` gives the
    names `os.scandir` yields for a directory, in its order, and `resolve`
    is `Path(p).resolve()` relative to the working directory.
  */
  datatype FileSystem = FileSystem(
    present: Parts -> bool,
    isDir: Parts -> bool,
    listing: Parts -> seq<string>,
    resolve: Parts -> Resolution)

  /** `resolve()` always produces absolute paths. */
  ghost predicate ResolvesAbsolute(fs: FileSystem) {
    forall p :: fs.resolve(p).Resolved? ==> IsAbsolute(fs.resolve(p).path)
  }

  lemma {:induction false} JoinSlashSnoc(ps: Parts, c: string)
    ensures JoinSlash(ps + [c]) == if ps == [] then c else JoinSlash(ps) + "/" + c
    decreases |ps|
  {
    if |ps| >= 1 {
      assert (ps + [c])[1..] == ps[1..] + [c];
      JoinSlashSnoc(ps[1..], c);
    }
  }

  /** `str(dir / name)` ends with the name, right after a "/" or at the start. */
  lemma RenderEndsWithName(dir: Parts, name: string)
    requires IsComponent(name)
    ensures exists pre :: Render(dir + [name]) == pre + name && (pre == [] || pre[|pre| - 1] == '/')
  {
    if dir == [] {
      assert Render(dir + [name]) == [] + name;
    } else if dir[0] == Root {
      assert (dir + [name])[1..] == dir[1..] + [name];
      JoinSlashSnoc(dir[1..], name);
      var pre := if dir[1..] == [] then "/" else "/" + JoinSlash(dir[1..]) + "/";
      assert Render(dir + [name]) == pre + name;
    } else {
      JoinSlashSnoc(dir, name);
      var pre := JoinSlash(dir) + "/";
      assert Render(dir + [name]) == pre + name;
    }
  }

  /** The text after the last "/" of `s` (all of `s` when it has none). */
  function LastSegment(s: string): string {
    if s == [] || s[|s| - 1] == '/' then [] else LastSegment(s[..|s| - 1]) + [s[|s| - 1]]
  }

  lemma {:induction false} LastSegmentAfterSlash(pre: string, name: string)
    requires '/' !in name && (pre == [] || pre[|pre| - 1] == '/')
    ensures LastSegment(pre + name) == name
    decreases |name|
  {
    if name == [] {
      assert pre + name == pre;
    } else {
      var init := name[..|name| - 1];
      assert (pre + name)[..|pre + name| - 1] == pre + init;
      assert name[|name| - 1] in name;
      LastSegmentAfterSlash(pre, init);
      assert init + [name[|name| - 1]] == name;
    }
  }

  /** A string ending in "/" or "/." asks the operating system for a directory. */
  predicate NamesDirectory(s: string) {
    '/' in s && (LastSegment(s) == "" || LastSegment(s) == ".")
  }

  /**
    `os.path.exists(s)` on the string as given: the empty string names
    nothing, and a trailing "/" (which pathlib drops) only finds a directory.
  */
  predicate OsPathExists(fs: FileSystem, s: string) {
    s != "" && fs.present(Parse(s)) && (NamesDirectory(s) ==> fs.isDir(Parse(s)))
  }

  /** On what `str(path)` prints, `os.path.exists` agrees with pathlib's `exists()`. */
  lemma OsPathExistsOfRendered(fs: FileSystem, p: Parts)
    requires WellFormed(p) && Name(p) != ""
    ensures OsPathExists(fs, Render(p)) <==> fs.present(p)
  {
    var dir, name := p[..|p| - 1], p[|p| - 1];
    assert p == dir + [name];
    assert IsComponent(name);
    RenderEndsWithName(dir, name);
    var pre :| Render(p) == pre + name && (pre == [] || pre[|pre| - 1] == '/');
    LastSegmentAfterSlash(pre, name);
    assert Render(p) != "";
    ParseRender(p);
  }

  /** "" names nothing, and "name/" exists only as a directory, though pathlib reads both more leniently. */
  lemma OsPathExistsStricter(fs: FileSystem, c: string)
    requires IsComponent(c)
    ensures !OsPathExists(fs, "")
    ensures OsPathExists(fs, c + "/") <==> fs.present([c]) && fs.isDir([c])
  {
    ComponentsCons(c, "");
    assert c + "/" == c + ("/" + "");
    assert Components("") == [];
    assert (c + "/")[0] == c[0] && c[0] in c;
    assert Parse(c + "/") == [c];
    assert (c + "/")[|c|] == '/';
    assert LastSegment(c + "/") == [];
  }

  /** pathlib's `glob("*.wav")` test on a name (pathlib also matches dot-files). */
  predicate MatchesWav(name: string) {
    EndsWith(name, ".wav")
  }

  /** The `sample_*.wav` pattern: the prefix and the suffix, not overlapping. */
  predicate MatchesSample(name: string) {
    |name| >= 11 && StartsWith(name, "sample_") && EndsWith(name, ".wav")
  }
}

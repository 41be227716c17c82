/** File-system paths in the two forms the core uses: `os.path` strings, and
    `pathlib` paths as sequences of segments. */
module Paths {
  import opened Wrappers
  import opened Text

  // ------------------------------------------------------ os.path on strings

  /** `os.path.join(a, b)`: `b` itself when absolute, otherwise appended to `a`
      with one `/` in between unless `a` is empty or already ends with one. */
  function PathJoin(a: string, b: string): (r: string)
    ensures EndsWith(r, b)
    ensures StartsWith(b, "/") ==> r == b
  {
    if StartsWith(b, "/") then b
    else if a == [] || EndsWith(a, "/") then a + b
    else a + "/" + b
  }

  /** The index just after the last `/` of `p[..i]`, or 0. */
  function AfterLastSlash(p: string, i: nat): (k: nat)
    requires i <= |p|
    ensures k <= i
    ensures forall j :: k <= j < i ==> p[j] != '/'
    ensures k > 0 ==> p[k - 1] == '/'
  {
    if i == 0 then 0
    else if p[i - 1] == '/' then i
    else AfterLastSlash(p, i - 1)
  }

  /** `os.path.basename(p)`: the text after the last `/`. */
  function Basename(p: string): (r: string)
    ensures '/' !in r && EndsWith(p, r)
    ensures |r| < |p| ==> p[|p| - |r| - 1] == '/'
  {
    var k := AfterLastSlash(p, |p|);
    assert forall j :: 0 <= j < |p| - k ==> p[k..][j] == p[k + j];
    p[k..]
  }

  /** Joining a name without `/` to a directory and taking the base name gives the name back. */
  lemma BasenameOfJoin(a: string, name: string)
    requires '/' !in name
    ensures Basename(PathJoin(a, name)) == name
  {
    var r := PathJoin(a, name);
    assert r[|r| - |name|..] == name;
    if name != [] {
      assert !StartsWith(name, "/") by { assert name[0] != '/'; }
      assert |r| > |name| ==> r[|r| - |name| - 1] == '/';
    } else {
      assert r == a || r == a + "/";
    }
    BasenameIsLastSegment(r, |r| - |name|);
  }

  /** When `p[k..]` has no `/` and `p[k - 1]` is one, the base name is `p[k..]`. */
  lemma {:induction false} BasenameIsLastSegment(p: string, k: nat)
    requires k <= |p| && '/' !in p[k..] && (k > 0 ==> p[k - 1] == '/')
    ensures Basename(p) == p[k..]
  {
    AfterLastSlashAt(p, |p|, k);
  }

  lemma {:induction false} AfterLastSlashAt(p: string, i: nat, k: nat)
    requires k <= i <= |p| && '/' !in p[k..i] && (k > 0 ==> p[k - 1] == '/')
    ensures AfterLastSlash(p, i) == k
    decreases i
  {
    if i > k {
      assert p[i - 1] == p[k..i][i - 1 - k];
      assert p[k..i - 1] == p[k..i][..i - 1 - k];
      AfterLastSlashAt(p, i - 1, k);
    } else if i > 0 {
      assert p[i - 1] == '/';
    }
  }

  // --------------------------------------------------- pathlib as segments

  /** A normalised path: the segments of an absolute path, or of a relative one. */
  type Path = seq<string>

  /** `Path.parent`; the root is its own parent. */
  function Parent(p: Path): (r: Path)
    ensures p != [] ==> p == r + [p[|p| - 1]]
    ensures p == [] ==> r == []
  {
    if p == [] then [] else p[..|p| - 1]
  }

  /** `p.relative_to(base)`: the rest of `p` below `base`, or an error when
      `p` is not inside `base`. */
  function RelativeTo(p: Path, base: Path): (r: Option<Path>)
    ensures r.Some? <==> |base| <= |p| && p[..|base|] == base
    ensures r.Some? ==> p == base + r.value
  {
    if |base| <= |p| && p[..|base|] == base then Some(p[|base|..]) else None
  }

  /** Length of the longest common prefix. */
  function CommonPrefix(a: Path, b: Path): (n: nat)
    ensures n <= |a| && n <= |b| && a[..n] == b[..n]
    ensures n < |a| && n < |b| ==> a[n] != b[n]
  {
    if a != [] && b != [] && a[0] == b[0] then
      var n := 1 + CommonPrefix(a[1..], b[1..]);
      assert a[..n] == [a[0]] + a[1..][..n - 1];
      assert b[..n] == [b[0]] + b[1..][..n - 1];
      n
    else 0
  }

  function Ups(n: nat): (r: Path)
    ensures |r| == n && forall k :: 0 <= k < n ==> r[k] == ".."
  {
    if n == 0 then [] else [".."] + Ups(n - 1)
  }

  /** `os.path.relpath(target, start)` for two normalised absolute paths: climb
      from `start` to the common ancestor, then descend to `target`. */
  function RelPath(target: Path, start: Path): Path
  {
    var n := CommonPrefix(target, start);
    Ups(|start| - n) + target[n..]
  }

  /** Following a relative path from `base`: `..` climbs one level, any other
      segment descends. */
  function Resolve(base: Path, rel: Path): Path
    decreases |rel|
  {
    if rel == [] then base
    else if rel[0] == ".." then Resolve(Parent(base), rel[1..])
    else Resolve(base + [rel[0]], rel[1..])
  }

  /** `relpath` is undone by following its result from the start directory,
      for targets whose segments are not `..`. */
  lemma RelPathResolves(target: Path, start: Path)
    requires forall k :: 0 <= k < |target| ==> target[k] != ".."
    ensures Resolve(start, RelPath(target, start)) == target
  {
    var n := CommonPrefix(target, start);
    ResolveUps(start, |start| - n, target[n..]);
    assert start[..n] == target[..n];
    ResolveDown(target[..n], target[n..]);
    assert target[..n] + target[n..] == target;
  }

  lemma {:induction false} ResolveUps(base: Path, n: nat, rest: Path)
    requires n <= |base|
    ensures Resolve(base, Ups(n) + rest) == Resolve(base[..|base| - n], rest)
  {
    if n > 0 {
      assert (Ups(n) + rest)[0] == "..";
      assert (Ups(n) + rest)[1..] == Ups(n - 1) + rest;
      ResolveUps(Parent(base), n - 1, rest);
      assert Parent(base)[..|Parent(base)| - (n - 1)] == base[..|base| - n];
    } else {
      assert Ups(0) + rest == rest;
      assert base[..|base|] == base;
    }
  }

  lemma {:induction false} ResolveDown(base: Path, rest: Path)
    requires forall k :: 0 <= k < |rest| ==> rest[k] != ".."
    ensures Resolve(base, rest) == base + rest
    decreases |rest|
  {
    if rest != [] {
      ResolveDown(base + [rest[0]], rest[1..]);
      assert base + [rest[0]] + rest[1..] == base + rest;
    }
  }

  /** `relative_to` and concatenation are inverse. */
  lemma RelativeToConcat(base: Path, rest: Path)
    ensures RelativeTo(base + rest, base) == Some(rest)
  {
    assert (base + rest)[..|base|] == base;
    assert (base + rest)[|base|..] == rest;
  }

  /** `str()` of an absolute path. */
  function AbsoluteText(p: Path): (r: string)
    ensures r != [] && r[0] == '/'
  {
    "/" + JoinSegments(p)
  }

  /** `str()` of a relative path: `.` when it is empty. */
  function RelativeText(p: Path): (r: string)
    ensures p == [] ==> r == "."
  {
    if p == [] then "." else Join('/', p)
  }

  function JoinSegments(p: Path): string {
    if p == [] then "" else Join('/', p)
  }
}

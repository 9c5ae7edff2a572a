/**
 * Filesystem paths as sequences of segments, the string form they are
 * written in, and the lexical arithmetic of `Pathname#relative_path_from`.
 */
module Paths {

  /** A path's segments; an absolute path lists them from the filesystem root. */
  type Path = seq<string>

  /** A path component that names an entry: not empty, not `.` or `..`, no `/`. */
  predicate Segment(x: string) {
    x != "" && x != "." && x != ".." && '/' !in x
  }

  predicate Clean(p: Path) {
    forall i | 0 <= i < |p| :: Segment(p[i])
  }

  /** The parent directory (`Pathname#dirname`) of a non-empty path. */
  function Parent(p: Path): (r: Path)
    requires p != []
    ensures |r| == |p| - 1 && p == r + [p[|p| - 1]]
  {
    p[..|p| - 1]
  }

  /** The segments joined with `/`. */
  function Join(p: Path): string
  {
    if p == [] then ""
    else if |p| == 1 then p[0]
    else p[0] + "/" + Join(p[1..])
  }

  /** Position of the first `/` in `s`, or `|s|` when there is none. */
  function SlashIndex(s: string): (i: nat)
    ensures i <= |s|
    ensures i < |s| ==> s[i] == '/'
    ensures forall j | 0 <= j < i :: s[j] != '/'
  {
    if s == [] || s[0] == '/' then 0 else 1 + SlashIndex(s[1..])
  }

  /** The `/`-separated fields of `s`; there is always at least one. */
  function Fields(s: string): (r: Path)
    ensures |r| >= 1
    decreases |s|
  {
    var i := SlashIndex(s);
    if i == |s| then [s] else [s[..i]] + Fields(s[i + 1..])
  }

  /** The segments of a path written as a string; the empty string has none. */
  function Split(s: string): Path
  {
    if s == "" then [] else Fields(s)
  }

  lemma {:induction false} JoinFields(s: string)
    ensures Join(Fields(s)) == s
    decreases |s|
  {
    var i := SlashIndex(s);
    if i < |s| {
      JoinFields(s[i + 1..]);
      assert s == s[..i] + "/" + s[i + 1..];
    }
  }

  /** Splitting a string and joining the segments again gives the string back. */
  lemma JoinSplit(s: string)
    ensures Join(Split(s)) == s
  {
    if s != "" {
      JoinFields(s);
    }
  }

  lemma {:induction false} FieldsJoin(p: Path)
    requires p != []
    requires forall i | 0 <= i < |p| :: '/' !in p[i]
    ensures Fields(Join(p)) == p
    decreases |p|
  {
    if |p| == 1 {
      SlashFree(p[0]);
    } else {
      var s := Join(p);
      assert s == p[0] + "/" + Join(p[1..]);
      SlashFree(p[0]);
      SlashIndexAfter(p[0], Join(p[1..]));
      assert s[..|p[0]|] == p[0];
      assert s[|p[0]| + 1..] == Join(p[1..]);
      FieldsJoin(p[1..]);
    }
  }

  lemma {:induction false} SlashFree(x: string)
    requires '/' !in x
    ensures SlashIndex(x) == |x|
    decreases |x|
  {
    if x != [] {
      assert '/' !in x[1..] by {
        assert forall j | 0 <= j < |x[1..]| :: x[1..][j] == x[j + 1];
      }
      SlashFree(x[1..]);
    }
  }

  lemma {:induction false} SlashIndexAfter(x: string, rest: string)
    requires SlashIndex(x) == |x|
    ensures SlashIndex(x + "/" + rest) == |x|
    decreases |x|
  {
    var s := x + "/" + rest;
    if x == [] {
      assert s[0] == '/';
    } else {
      assert s[0] == x[0] != '/';
      assert s[1..] == x[1..] + "/" + rest;
      SlashIndexAfter(x[1..], rest);
    }
  }

  /** Joining segments free of `/` and splitting the result gives them back. */
  lemma SplitJoin(p: Path)
    requires forall i | 0 <= i < |p| :: p[i] != "" && '/' !in p[i]
    ensures Split(Join(p)) == p
  {
    if p != [] {
      assert Join(p) != "" by {
        if |p| > 1 {
          assert |Join(p)| >= |p[0]| + 1;
        }
      }
      FieldsJoin(p);
    }
  }

  /** `'/' in s` exactly when `s` has more than one field. */
  lemma {:induction false} SlashFields(s: string)
    ensures '/' in s <==> |Fields(s)| > 1
  {
    var i := SlashIndex(s);
    if i == |s| {
      assert forall j | 0 <= j < |s| :: s[j] != '/';
    }
  }

  /** The number of leading segments `a` and `b` share. */
  function CommonPrefixLength(a: Path, b: Path): (n: nat)
    ensures n <= |a| && n <= |b|
    ensures a[..n] == b[..n]
    ensures n < |a| && n < |b| ==> a[n] != b[n]
  {
    if a == [] || b == [] || a[0] != b[0] then 0
    else
      var m := CommonPrefixLength(a[1..], b[1..]);
      assert a[..m + 1] == [a[0]] + a[1..][..m];
      assert b[..m + 1] == [b[0]] + b[1..][..m];
      1 + m
  }

  /** `n` parent-directory steps. */
  function Ups(n: nat): (r: Path)
    ensures |r| == n && forall i | 0 <= i < n :: r[i] == ".."
  {
    seq(n, _ => "..")
  }

  /**
   * `target.relative_path_from(base)` for two absolute paths: one `..` for
   * every segment of `base` past the common prefix, then the rest of
   * `target`; `.` when the two are the same path.
   */
  function RelativeFrom(target: Path, base: Path): Path
  {
    var n := CommonPrefixLength(target, base);
    var r := Ups(|base| - n) + target[n..];
    if r == [] then ["."] else r
  }

  /**
   * Lexical resolution of `rel` from directory `dir`: `..` drops a segment,
   * `.` stays, any other segment descends. This is how the kernel follows a
   * relative symbolic link when `dir` is clean and no directory on the way
   * is itself a link.
   */
  function Resolve(dir: Path, rel: Path): Path
    decreases |rel|
  {
    if rel == [] then dir
    else if rel[0] == ".." then Resolve(if dir == [] then [] else Parent(dir), rel[1..])
    else if rel[0] == "." then Resolve(dir, rel[1..])
    else Resolve(dir + [rel[0]], rel[1..])
  }

  lemma {:induction false} ResolveDescends(dir: Path, t: Path)
    requires Clean(t)
    ensures Resolve(dir, t) == dir + t
    decreases |t|
  {
    if t != [] {
      assert Segment(t[0]);
      assert Clean(t[1..]) by {
        assert forall i | 0 <= i < |t[1..]| :: t[1..][i] == t[i + 1];
      }
      ResolveDescends(dir + [t[0]], t[1..]);
      assert dir + [t[0]] + t[1..] == dir + t;
    }
  }

  lemma {:induction false} ResolveClimbs(dir: Path, k: nat, t: Path)
    requires k <= |dir|
    ensures Resolve(dir, Ups(k) + t) == Resolve(dir[..|dir| - k], t)
    decreases k
  {
    if k > 0 {
      var rel := Ups(k) + t;
      assert rel[0] == "..";
      assert rel[1..] == Ups(k - 1) + t;
      ResolveClimbs(Parent(dir), k - 1, t);
      assert Parent(dir)[..|Parent(dir)| - (k - 1)] == dir[..|dir| - k];
    } else {
      assert Ups(0) + t == t;
      assert dir[..|dir|] == dir;
    }
  }

  /**
   * Following the relative path from `base` leads back to `target`: the
   * link target computed from the link's directory reaches the file.
   */
  lemma RelativeFromResolves(target: Path, base: Path)
    requires Clean(target)
    ensures Resolve(base, RelativeFrom(target, base)) == target
  {
    var n := CommonPrefixLength(target, base);
    var rest := target[n..];
    assert Clean(rest) by {
      assert forall i | 0 <= i < |rest| :: rest[i] == target[n + i];
    }
    var r := Ups(|base| - n) + rest;
    if r == [] {
      assert Resolve(base, ["."]) == Resolve(base, []);
      assert target == target[..n] == base[..n] == base;
    } else {
      ResolveClimbs(base, |base| - n, rest);
      ResolveDescends(base[..n], rest);
      assert target == target[..n] + rest;
    }
  }

  /** A shared leading part of both paths does not change the relative path. */
  lemma RelativeFromSharedRoot(root: Path, target: Path, base: Path)
    ensures RelativeFrom(root + target, root + base) == RelativeFrom(target, base)
  {
    CommonPrefixShared(root, target, base);
    var n := CommonPrefixLength(target, base);
    assert (root + target)[|root| + n..] == target[n..];
  }

  lemma {:induction false} CommonPrefixShared(root: Path, target: Path, base: Path)
    ensures CommonPrefixLength(root + target, root + base) == |root| + CommonPrefixLength(target, base)
    decreases |root|
  {
    if root == [] {
      assert root + target == target && root + base == base;
    } else {
      assert (root + target)[0] == root[0] && (root + base)[0] == root[0];
      assert (root + target)[1..] == root[1..] + target;
      assert (root + base)[1..] == root[1..] + base;
      CommonPrefixShared(root[1..], target, base);
    }
  }
}

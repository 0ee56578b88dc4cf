/**
 * Slash-separated file paths as sequences of components. The root
 * directory is the empty sequence; `filepath.Join(p, "a", "b")` is
 * `p + ["a", "b"]` for plain components, and JoinPath below gives the
 * general case with "", "." and "..".
 */
module Paths {
  import opened Strings

  type Path = seq<string>

  predicate IsPrefix(p: Path, q: Path) {
    |p| <= |q| && q[..|p|] == p
  }

  /** `q` lies strictly below `p`. */
  predicate IsStrictPrefix(p: Path, q: Path) {
    |p| < |q| && q[..|p|] == p
  }

  function Parent(p: Path): (r: Path)
    requires |p| > 0
    ensures |r| + 1 == |p| && IsPrefix(r, p)
  {
    p[..|p| - 1]
  }

  /** filepath.Base of a non-root path. */
  function Last(p: Path): (r: string)
    requires |p| > 0
    ensures r in p
  {
    p[|p| - 1]
  }

  /** A component filepath.Clean keeps as it is. */
  predicate PlainComponent(c: string) {
    c != "" && c != "." && c != ".."
  }

  /**
   * One component of a name added to a clean directory, as filepath.Clean
   * treats it: "" and "." vanish, ".." steps up but never above the root.
   */
  function Step(dir: Path, c: string): (r: Path)
    ensures PlainComponent(c) ==> r == dir + [c]
    ensures c == ".." ==> IsPrefix(r, dir) && |r| == if dir == [] then 0 else |dir| - 1
    ensures !PlainComponent(c) && c != ".." ==> r == dir
  {
    if c == "" || c == "." then dir
    else if c == ".." then (if dir == [] then [] else Parent(dir))
    else dir + [c]
  }

  /**
   * filepath.Join(dir, name) for a clean `dir`, with `name` split at its
   * slashes: Join concatenates and then cleans, which applies the name's
   * components to `dir` from left to right.
   */
  function JoinPath(dir: Path, name: Path): (r: Path)
    ensures |r| <= |dir| + |name|
    decreases |name|
  {
    if name == [] then dir else JoinPath(Step(dir, name[0]), name[1..])
  }

  /** A name of plain components is appended as it is. */
  lemma {:induction false} JoinPlain(dir: Path, name: Path)
    requires forall c | c in name :: PlainComponent(c)
    ensures JoinPath(dir, name) == dir + name
    decreases |name|
  {
    if name != [] {
      JoinPlain(dir + [name[0]], name[1..]);
      assert dir + [name[0]] + name[1..] == dir + name;
    }
  }

  /** A ".." for each component of `dir` leads to the root, whatever follows. */
  lemma {:induction false} JoinClimbs(dir: Path, rest: Path)
    ensures JoinPath(dir, seq(|dir|, _ => "..") + rest) == JoinPath([], rest)
    decreases |dir|
  {
    var ups := seq(|dir|, _ => "..");
    if dir != [] {
      var name := ups + rest;
      assert name[0] == ".." && name[1..] == seq(|Parent(dir)|, _ => "..") + rest;
      JoinClimbs(Parent(dir), rest);
    } else {
      assert ups + rest == rest;
    }
  }

  lemma PrefixTransitive(a: Path, b: Path, c: Path)
    requires IsPrefix(a, b) && IsPrefix(b, c)
    ensures IsPrefix(a, c)
  {
    assert c[..|a|] == c[..|b|][..|a|];
  }

  /** Two prefixes of one path are prefixes of each other. */
  lemma PrefixesComparable(a: Path, b: Path, c: Path)
    requires IsPrefix(a, c) && IsPrefix(b, c)
    ensures IsPrefix(a, b) || IsPrefix(b, a)
  {
    if |a| <= |b| {
      assert b[..|a|] == c[..|b|][..|a|];
    } else {
      assert a[..|b|] == c[..|a|][..|b|];
    }
  }

  /** Whatever lies below a path's parent's prefix lies below the path's too. */
  lemma PrefixOfParent(p: Path, q: Path)
    requires |q| > 0
    ensures IsPrefix(p, Parent(q)) ==> IsPrefix(p, q)
  {
    if IsPrefix(p, Parent(q)) {
      PrefixTransitive(p, Parent(q), q);
    }
  }

  /**
   * The order filepath.Walk visits paths in: a directory before what is
   * below it, and the entries of a directory by name.
   */
  predicate PathLt(a: Path, b: Path)
    decreases |a|
  {
    if |a| == 0 then |b| > 0
    else if |b| == 0 then false
    else StrLt(a[0], b[0]) || (a[0] == b[0] && PathLt(a[1..], b[1..]))
  }

  lemma {:induction false} PathLtIrreflexive(a: Path)
    ensures !PathLt(a, a)
    decreases |a|
  {
    if |a| > 0 {
      StrLtIrreflexive(a[0]);
      PathLtIrreflexive(a[1..]);
    }
  }

  lemma {:induction false} PathLtTransitive(a: Path, b: Path, c: Path)
    requires PathLt(a, b) && PathLt(b, c)
    ensures PathLt(a, c)
    decreases |a|
  {
    if |a| > 0 {
      if StrLt(a[0], b[0]) && StrLt(b[0], c[0]) {
        StrLtTransitive(a[0], b[0], c[0]);
      } else if a[0] == b[0] && b[0] == c[0] {
        PathLtTransitive(a[1..], b[1..], c[1..]);
      }
    }
  }

  lemma {:induction false} PathLtTotal(a: Path, b: Path)
    ensures a == b || PathLt(a, b) || PathLt(b, a)
    decreases |a|
  {
    if |a| > 0 && |b| > 0 {
      StrLtTotal(a[0], b[0]);
      if a[0] == b[0] {
        PathLtTotal(a[1..], b[1..]);
        if a[1..] == b[1..] {
          assert a == [a[0]] + a[1..] && b == [b[0]] + b[1..];
        }
      }
    }
  }

  lemma PathLtAsymmetric(a: Path, b: Path)
    requires PathLt(a, b)
    ensures !PathLt(b, a)
  {
    if PathLt(b, a) {
      PathLtTransitive(a, b, a);
      PathLtIrreflexive(a);
    }
  }

  /** A directory is visited before everything below it. */
  lemma {:induction false} PrefixVisitedFirst(p: Path, q: Path)
    requires IsStrictPrefix(p, q)
    ensures PathLt(p, q)
    decreases |p|
  {
    if |p| > 0 {
      assert q[1..][..|p| - 1] == p[1..];
      PrefixVisitedFirst(p[1..], q[1..]);
    }
  }

  /** `m` is the first element of `s` in walk order. */
  predicate IsFirst(m: Path, s: set<Path>) {
    m in s && forall x | x in s :: x == m || PathLt(m, x)
  }

  lemma FirstUnique(m: Path, n: Path, s: set<Path>)
    requires IsFirst(m, s) && IsFirst(n, s)
    ensures m == n
  {
    if m != n {
      assert PathLt(m, n) && PathLt(n, m);
      PathLtAsymmetric(m, n);
    }
  }

  lemma {:induction false} FirstExists(s: set<Path>)
    requires s != {}
    ensures exists m :: IsFirst(m, s)
    decreases |s|
  {
    var x :| x in s;
    if s != {x} {
      FirstExists(s - {x});
      var m :| IsFirst(m, s - {x});
      PathLtTotal(x, m);
      if PathLt(x, m) {
        forall y | y in s ensures y == x || PathLt(x, y) {
          if y != x && y != m {
            PathLtTransitive(x, m, y);
          }
        }
        assert IsFirst(x, s);
      } else {
        assert IsFirst(m, s);
      }
    } else {
      assert IsFirst(x, s);
    }
  }
}

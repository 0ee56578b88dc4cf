/**
 * The behaviour of the Go `os` and `path/filepath` calls the package
 * manager makes, over a file tree held as a map from paths to nodes.
 * Errors come from the shape of the tree only (missing entries, entries
 * of the wrong kind, symbolic link loops); there are no permissions.
 */
module Os {
  import opened Wrappers
  import opened Strings
  import opened Paths

  /** Contents of a regular file: opaque bytes, or a gzip-compressed tar stream. */
  datatype Content =
    | Raw(data: seq<int>)
    | TarGz(entries: seq<TarEntry>, tail: TarTail)

  /** How a tar stream ends after its entries. */
  datatype TarTail = EndOfArchive | Corrupt

  /** A tar header with the type flag Go's tar reader reports. */
  datatype TarEntry = TarEntry(name: Path, kind: EntryKind)

  datatype EntryKind =
    | TypeDir
    | TypeReg(body: Content, mode: nat)
    | TypeOther(flag: char)

  /** A directory, a regular file, or a symbolic link. */
  datatype Node = Dir | File(content: Content, mode: nat) | Link(target: Path)

  type Tree = map<Path, Node>

  datatype FsError = ENOENT | ENOTDIR | EISDIR | EEXIST | ENOTEMPTY | ELOOP | EINVAL | EBUSY

  /** 0755 and 0666 in octal. */
  const Mode0755: nat := 493
  const Mode0666: nat := 438

  /** The kernel gives up after following this many symbolic links. */
  const MaxSymlinkHops: nat := 40

  predicate ParentIsDir(t: Tree, p: Path) {
    |p| > 0 && (|p| == 1 || (Parent(p) in t && t[Parent(p)].Dir?))
  }

  /** Every entry hangs below a directory; the root is implicit. */
  predicate Valid(t: Tree) {
    [] !in t && forall p | p in t :: ParentIsDir(t, p)
  }

  /** A component strictly above `p` exists and is not a directory. */
  predicate Blocked(t: Tree, p: Path) {
    exists k | 0 < k < |p| :: p[..k] in t && !t[p[..k]].Dir?
  }

  /** The error a lookup of an absent path reports. */
  function MissingErr(t: Tree, p: Path): (e: FsError)
    ensures e == ENOTDIR <==> Blocked(t, p)
    ensures e == ENOENT || e == ENOTDIR
  {
    if Blocked(t, p) then ENOTDIR else ENOENT
  }

  /** In a valid tree nothing above a present entry blocks it. */
  lemma {:induction false} PresentNotBlocked(t: Tree, p: Path)
    requires Valid(t) && p in t
    ensures !Blocked(t, p)
    decreases |p|
  {
    if |p| > 1 {
      PresentNotBlocked(t, Parent(p));
      forall k | 0 < k < |p| && p[..k] in t ensures t[p[..k]].Dir? {
        if k == |p| - 1 {
        } else {
          assert Parent(p)[..k] == p[..k];
        }
      }
    }
  }

  /** Outcome of following a path through symbolic links. */
  datatype Lookup = Found(path: Path, node: Node) | Missing(path: Path, err: FsError) | TooManyLinks

  function Resolve(t: Tree, p: Path, hops: nat): (r: Lookup)
    ensures r.Found? ==> !r.node.Link?
    ensures r.Found? && r.path != [] ==> r.path in t && t[r.path] == r.node
    ensures r.Found? && r.path == [] ==> r.node == Dir
    ensures r.Missing? ==> r.path !in t && r.path != [] && r.err == MissingErr(t, r.path)
    decreases hops
  {
    if p == [] then Found([], Dir)
    else if p !in t then Missing(p, MissingErr(t, p))
    else match t[p]
      case Link(target) => if hops == 0 then TooManyLinks else Resolve(t, target, hops - 1)
      case n => Found(p, n)
  }

  /** os.Stat: follows symbolic links. */
  function Stat(t: Tree, p: Path): Lookup {
    Resolve(t, p, MaxSymlinkHops)
  }

  /** os.IsNotExist of the error a lookup reports. */
  predicate IsNotExist(r: Lookup) {
    r.Missing? && r.err == ENOENT
  }

  /** os.Lstat: does not follow a final symbolic link. */
  function Lstat(t: Tree, p: Path): (r: Result<Node, FsError>)
    ensures r.Ok? <==> p == [] || p in t
    ensures r.Ok? && p != [] ==> r.value == t[p]
  {
    if p == [] then Ok(Dir)
    else if p in t then Ok(t[p])
    else Err(MissingErr(t, p))
  }

  /** os.Readlink. */
  function Readlink(t: Tree, p: Path): (r: Result<Path, FsError>)
    ensures r.Ok? <==> p != [] && p in t && t[p].Link?
    ensures r.Ok? ==> t[p] == Link(r.value)
  {
    match Lstat(t, p)
    case Err(e) => Err(e)
    case Ok(n) => if n.Link? then Ok(n.target) else Err(EINVAL)
  }

  /** `b` agrees with `a` on everything `a` holds. */
  predicate Extends(a: Tree, b: Tree) {
    forall q | q in a :: q in b && b[q] == a[q]
  }

  /** os.Mkdir. */
  function Mkdir(t: Tree, p: Path): (r: Result<Tree, FsError>)
    ensures r.Ok? <==> p != [] && p !in t && ParentIsDir(t, p)
    ensures r.Ok? ==> Extends(t, r.value) && r.value.Keys == t.Keys + {p} && r.value[p] == Dir
    ensures r.Ok? && Valid(t) ==> Valid(r.value)
  {
    if p == [] || p in t then Err(EEXIST)
    else if !ParentIsDir(t, p) then Err(MissingErr(t, p))
    else Ok(t[p := Dir])
  }

  /**
   * os.MkdirAll: succeeds at once when `p` already resolves to a
   * directory, fails when it resolves to anything else, and otherwise
   * creates the parent first and then `p`.
   */
  function MkdirAll(t: Tree, p: Path): (r: Result<Tree, FsError>)
    ensures r.Ok? ==> Extends(t, r.value)
    ensures r.Ok? ==> forall q | q in r.value && q !in t :: IsPrefix(q, p) && r.value[q] == Dir
    ensures r.Ok? ==> Stat(r.value, p).Found? && Stat(r.value, p).node == Dir
    ensures r.Ok? && Valid(t) ==> Valid(r.value)
    ensures Stat(t, p).Found? ==> r == (if Stat(t, p).node == Dir then Ok(t) else Err(ENOTDIR))
    ensures r.Ok? && !Stat(t, p).Found? ==> p !in t && p in r.value && r.value[p] == Dir
    decreases |p|
  {
    if p == [] then Ok(t)
    else match Stat(t, p)
      case Found(_, n) => if n == Dir then Ok(t) else Err(ENOTDIR)
      case _ =>
        match MkdirAll(t, Parent(p))
        case Err(e) => Err(e)
        case Ok(t1) => MkdirAllLast(t, t1, p)
  }

  /** The final os.Mkdir of MkdirAll, once the parent is in place. */
  function MkdirAllLast(t: Tree, t1: Tree, p: Path): (r: Result<Tree, FsError>)
    requires |p| > 0 && Extends(t, t1)
    requires forall q | q in t1 && q !in t :: IsPrefix(q, Parent(p)) && t1[q] == Dir
    requires !Stat(t, p).Found?
    ensures r.Ok? ==> Extends(t, r.value)
    ensures r.Ok? ==> forall q | q in r.value && q !in t :: IsPrefix(q, p) && r.value[q] == Dir
    ensures r.Ok? ==> Stat(r.value, p).Found? && Stat(r.value, p).node == Dir
    ensures r.Ok? && Valid(t1) ==> Valid(r.value)
    ensures r.Ok? ==> p !in t && p in r.value && r.value[p] == Dir
  {
    match Mkdir(t1, p)
    case Err(e) => Err(e)
    case Ok(t2) =>
      assert Stat(t2, p) == Found(p, Dir);
      forall q | q in t2 && q !in t ensures IsPrefix(q, p) && t2[q] == Dir {
        if q != p {
          PrefixTransitive(q, Parent(p), p);
        }
      }
      Ok(t2)
  }

  /** A directory entry with something below it. */
  predicate HasChildren(t: Tree, p: Path) {
    exists q | q in t :: IsStrictPrefix(p, q)
  }

  /** os.Remove: a file, a symbolic link or an empty directory; links are not followed. */
  function Remove(t: Tree, p: Path): (r: Result<Tree, FsError>)
    ensures r.Ok? <==> p != [] && p in t && !(t[p].Dir? && HasChildren(t, p))
    ensures r.Ok? ==> r.value.Keys == t.Keys - {p} && forall q | q in r.value :: r.value[q] == t[q]
    ensures r.Ok? && Valid(t) ==> Valid(r.value)
  {
    if p == [] then Err(EBUSY)
    else if p !in t then Err(MissingErr(t, p))
    else if t[p].Dir? && HasChildren(t, p) then Err(ENOTEMPTY)
    else
      var t1 := t - {p};
      assert Valid(t) ==> Valid(t1) by {
        if Valid(t) {
          forall q | q in t1 ensures ParentIsDir(t1, q) {
            if |q| > 1 && Parent(q) == p {
              assert IsStrictPrefix(p, q);
            }
          }
        }
      }
      Ok(t1)
  }

  /** os.RemoveAll: `p` and everything below it; an absent path is not an error. */
  function RemoveAll(t: Tree, p: Path): (r: Result<Tree, FsError>)
    ensures r.Ok? <==> p in t || !Blocked(t, p)
    ensures r.Ok? ==> forall q :: q in r.value <==> q in t && !IsPrefix(p, q)
    ensures r.Ok? ==> forall q | q in r.value :: r.value[q] == t[q]
    ensures r.Ok? && Valid(t) ==> Valid(r.value)
  {
    if p !in t && Blocked(t, p) then Err(ENOTDIR)
    else
      var t1 := map q | q in t && !IsPrefix(p, q) :: t[q];
      assert Valid(t) ==> Valid(t1) by {
        if Valid(t) {
          forall q | q in t1 ensures ParentIsDir(t1, q) {
            PrefixOfParent(p, q);
          }
        }
      }
      Ok(t1)
  }

  /** os.Symlink(target, p): never replaces an existing entry. */
  function Symlink(t: Tree, target: Path, p: Path): (r: Result<Tree, FsError>)
    ensures r.Ok? <==> p !in t && ParentIsDir(t, p)
    ensures r.Ok? ==> r.value == t[p := Link(target)]
    ensures r.Ok? && Valid(t) ==> Valid(r.value)
  {
    if p == [] || p in t then Err(EEXIST)
    else if !ParentIsDir(t, p) then Err(MissingErr(t, p))
    else Ok(t[p := Link(target)])
  }

  /**
   * os.Remove(p) with its error ignored, then os.Symlink(target, p): the
   * entry at `p` is replaced unless it is a directory with entries.
   */
  function Relink(t: Tree, target: Path, p: Path): (r: Outcome)
    ensures r.err.None? <==> ParentIsDir(t, p) && (p in t ==> !(t[p].Dir? && HasChildren(t, p)))
    ensures r.err.None? ==> r.tree == t[p := Link(target)]
    ensures r.err.None? && Valid(t) ==> Valid(r.tree)
    ensures r.err.Some? && Valid(t) ==> r.tree == t
  {
    match Remove(t, p)
    case Err(_) =>
      (match Symlink(t, target, p)
       case Ok(t2) => Outcome(t2, None)
       case Err(e) => Outcome(t, Some(e)))
    case Ok(t1) =>
      assert ParentIsDir(t1, p) <==> ParentIsDir(t, p) by {
        if |p| > 1 {
          assert Parent(p) != p;
        }
      }
      assert t1[p := Link(target)] == t[p := Link(target)];
      match Symlink(t1, target, p)
      case Ok(t2) => Outcome(t2, None)
      case Err(e) => Outcome(t1, Some(e))
  }

  /** os.Chmod: follows links; directory permissions are not modelled. */
  function Chmod(t: Tree, p: Path, mode: nat): (r: Result<Tree, FsError>)
    ensures r.Ok? <==> Stat(t, p).Found?
    ensures r.Ok? && Stat(t, p).node.File? ==>
      r.value == t[Stat(t, p).path := File(Stat(t, p).node.content, mode)]
    ensures r.Ok? && !Stat(t, p).node.File? ==> r.value == t
    ensures r.Ok? ==> r.value.Keys == t.Keys
  {
    match Stat(t, p)
    case Found(q, n) => if n.File? then Ok(t[q := File(n.content, mode)]) else Ok(t)
    case Missing(_, e) => Err(e)
    case TooManyLinks => Err(ELOOP)
  }

  /**
   * os.OpenFile(p, O_CREATE|O_RDWR|O_TRUNC, perm) followed by writing `c`:
   * an existing file keeps its mode, a new one gets `perm`, and a
   * dangling link creates its target.
   */
  function WriteFile(t: Tree, p: Path, c: Content, perm: nat): (r: Result<Tree, FsError>)
    ensures r.Ok? <==> (Stat(t, p).Found? && Stat(t, p).node.File?)
                       || (Stat(t, p).Missing? && ParentIsDir(t, Stat(t, p).path))
    ensures r.Ok? && Stat(t, p).Found? ==>
      r.value == t[Stat(t, p).path := File(c, Stat(t, p).node.mode)]
    ensures r.Ok? && Stat(t, p).Missing? ==> r.value == t[Stat(t, p).path := File(c, perm)]
    ensures r.Ok? && Valid(t) ==> Valid(r.value)
  {
    match Stat(t, p)
    case Found(q, n) => if n.File? then Ok(t[q := File(c, n.mode)]) else Err(EISDIR)
    case Missing(q, e) => if ParentIsDir(t, q) then Ok(t[q := File(c, perm)]) else Err(e)
    case TooManyLinks => Err(ELOOP)
  }

  /** Reading a whole file through os.Open. */
  function ReadContent(t: Tree, p: Path): (r: Result<Content, FsError>)
    ensures r.Ok? <==> Stat(t, p).Found? && Stat(t, p).node.File?
    ensures r.Ok? ==> r.value == Stat(t, p).node.content
  {
    match Stat(t, p)
    case Found(_, n) => if n.File? then Ok(n.content) else Err(EISDIR)
    case Missing(_, e) => Err(e)
    case TooManyLinks => Err(ELOOP)
  }

  /** A tree reached by a step that may have failed part-way. */
  datatype Outcome = Outcome(tree: Tree, err: Option<FsError>)

  /**
   * The copyFile helper: open `src`, create (truncate) `dst`, copy. A
   * directory source opens but fails to read, leaving `dst` empty.
   */
  function CopyFile(t: Tree, src: Path, dst: Path): (r: Outcome)
    ensures r.err.None? ==> Stat(t, src).Found?
  {
    match Stat(t, src)
    case Missing(_, e) => Outcome(t, Some(e))
    case TooManyLinks => Outcome(t, Some(ELOOP))
    case Found(_, _) =>
      match WriteFile(t, dst, Raw([]), Mode0666)
      case Err(e) => Outcome(t, Some(e))
      case Ok(t1) =>
        match ReadContent(t1, src)
        case Err(e) => Outcome(t1, Some(e))
        case Ok(c) =>
          match WriteFile(t1, dst, c, Mode0666)
          case Err(e) => Outcome(t1, Some(e))
          case Ok(t2) => Outcome(t2, None)
  }

  /**
   * os.Rename of a file or link: replaces a non-directory at `dst`.
   * Renaming a directory is not part of this model.
   */
  function RenameNonDir(t: Tree, src: Path, dst: Path): (r: Result<Tree, FsError>)
    requires src in t ==> !t[src].Dir?
    ensures r.Ok? <==> src != [] && src in t && (src == dst || ((dst !in t || !t[dst].Dir?) && ParentIsDir(t, dst)))
    ensures r.Ok? && src != dst ==> r.value == (t - {src})[dst := t[src]]
    ensures r.Ok? && src == dst ==> r.value == t
  {
    if src == [] || src !in t then Err(if src == [] then EBUSY else MissingErr(t, src))
    else if src == dst then Ok(t)
    else if dst in t && t[dst].Dir? then Err(EISDIR)
    else if !ParentIsDir(t, dst) then Err(MissingErr(t, dst))
    else Ok((t - {src})[dst := t[src]])
  }

  /** Names of the entries directly inside directory `q`. */
  function Children(t: Tree, q: Path): (r: set<string>)
    ensures forall n :: n in r <==> q + [n] in t
  {
    var r := set c | c in t.Keys && |c| == |q| + 1 && c[..|q|] == q :: c[|q|];
    assert forall n :: q + [n] in t ==> n in r by {
      forall n | q + [n] in t ensures n in r {
        var c := q + [n];
        assert c[..|q|] == q && c[|q|] == n;
      }
    }
    assert forall n :: n in r ==> q + [n] in t by {
      forall n | n in r ensures q + [n] in t {
        var c :| c in t.Keys && |c| == |q| + 1 && c[..|q|] == q && c[|q|] == n;
        assert c == q + [n];
      }
    }
    r
  }

  /** The names os.ReadDir lists, before sorting. */
  function ReadDirNames(t: Tree, p: Path): (r: Result<set<string>, FsError>)
    ensures r.Ok? <==> Stat(t, p).Found? && Stat(t, p).node == Dir
    ensures r.Ok? ==> r.value == Children(t, Stat(t, p).path)
  {
    match Stat(t, p)
    case Found(q, n) => if n == Dir then Ok(Children(t, q)) else Err(ENOTDIR)
    case Missing(_, e) => Err(e)
    case TooManyLinks => Err(ELOOP)
  }

  /** A non-directory at or below `root` whose base name is `b`. */
  predicate WalkMatch(t: Tree, root: Path, b: string, q: Path) {
    q in t && IsPrefix(root, q) && |q| > 0 && !t[q].Dir? && Last(q) == b
  }

  function WalkMatches(t: Tree, root: Path, b: string): (r: set<Path>)
    ensures forall q :: q in r <==> WalkMatch(t, root, b, q)
  {
    set q | q in t.Keys && WalkMatch(t, root, b, q)
  }

  /**
   * The path filepath.Walk reports first among the matches: the least in
   * walk order.
   */
  ghost function FirstMatch(t: Tree, root: Path, b: string): (r: Option<Path>)
    ensures r.None? <==> WalkMatches(t, root, b) == {}
    ensures r.Some? ==> IsFirst(r.value, WalkMatches(t, root, b))
  {
    var s := WalkMatches(t, root, b);
    if s == {} then None
    else
      FirstExists(s);
      var m :| IsFirst(m, s);
      Some(m)
  }

  /** Adding entries never changes where an existing lookup ends. */
  lemma {:induction false} ResolveExtends(t: Tree, t': Tree, p: Path, hops: nat)
    requires Extends(t, t') && !Resolve(t, p, hops).Missing?
    ensures Resolve(t', p, hops) == Resolve(t, p, hops)
    decreases hops
  {
    if p != [] && t[p].Link? && hops > 0 {
      ResolveExtends(t, t', t[p].target, hops - 1);
    }
  }

  /** Copying a readable file to a fresh name inside a directory. */
  lemma CopyFileFresh(t: Tree, src: Path, dst: Path, c: Content)
    requires ReadContent(t, src) == Ok(c)
    requires dst !in t && ParentIsDir(t, dst)
    ensures CopyFile(t, src, dst) == Outcome(t[dst := File(c, Mode0666)], None)
  {
    var t1 := t[dst := File(Raw([]), Mode0666)];
    assert Stat(t, dst) == Missing(dst, MissingErr(t, dst));
    assert WriteFile(t, dst, Raw([]), Mode0666) == Ok(t1);
    ResolveExtends(t, t1, src, MaxSymlinkHops);
    assert ReadContent(t1, src) == Ok(c);
    assert Stat(t1, dst) == Found(dst, File(Raw([]), Mode0666));
    assert t1[dst := File(c, Mode0666)] == t[dst := File(c, Mode0666)];
  }
}

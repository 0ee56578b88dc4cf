/**
 * The profile (pkg/profile/profile.go): `root/bin` holds one symbolic link
 * per installed binary, pointing into the store.
 */
module Profile {
  import opened Wrappers
  import opened Paths
  import opened Os
  import opened Disk

  datatype LinkError =
    | BinDirErr(e: FsError)                 // MkdirAll of the bin directory failed
    | LinkFailed(binary: string, e: FsError) // "failed to link %s"

  /** The tree Link leaves behind and the error it returns, if any. */
  datatype Linked = Linked(tree: Tree, err: Option<LinkError>)

  function BinDir(root: Path): Path {
    root + ["bin"]
  }

  /** `t` with `binDir/b` pointing at `storePath/b` for each `b`. */
  function Relinked(t: Tree, storePath: Path, binDir: Path, bins: seq<string>): Tree
    decreases |bins|
  {
    if bins == [] then t
    else Relinked(t[binDir + [bins[0]] := Link(storePath + [bins[0]])], storePath, binDir, bins[1..])
  }

  /** The loop of Link: replace each entry, stopping at the first that cannot be linked. */
  function LinkAll(t: Tree, storePath: Path, binDir: Path, bins: seq<string>): Linked
    decreases |bins|
  {
    if bins == [] then Linked(t, None)
    else
      var o := Relink(t, storePath + [bins[0]], binDir + [bins[0]]);
      if o.err.Some? then Linked(o.tree, Some(LinkFailed(bins[0], o.err.value)))
      else LinkAll(o.tree, storePath, binDir, bins[1..])
  }

  function LinkOutcome(t: Tree, root: Path, storePath: Path, bins: seq<string>): Linked {
    match MkdirAll(t, BinDir(root))
    case Err(e) => Linked(t, Some(BinDirErr(e)))
    case Ok(t1) => LinkAll(t1, storePath, BinDir(root), bins)
  }

  class Profile {
    const root: Path

    constructor (root: Path)
      ensures this.root == root
    {
      this.root := root;
    }

    method Link(fs: FileSystem, storePath: Path, binaries: seq<string>) returns (err: Option<LinkError>)
      modifies fs
      ensures Linked(fs.tree, err) == LinkOutcome(old(fs.tree), root, storePath, binaries)
    {
      var binDir := BinDir(root);
      var e := fs.MkdirAll(binDir);
      if e.Some? {
        return Some(BinDirErr(e.value));
      }
      ghost var t1 := fs.tree;
      var i := 0;
      while i < |binaries|
        invariant 0 <= i <= |binaries|
        invariant LinkAll(fs.tree, storePath, binDir, binaries[i..]) == LinkAll(t1, storePath, binDir, binaries)
        decreases |binaries| - i
      {
        assert binaries[i..][1..] == binaries[i + 1..];
        var source := storePath + [binaries[i]];
        var target := binDir + [binaries[i]];
        var _ := fs.Remove(target);
        e := fs.Symlink(source, target);
        if e.Some? {
          return Some(LinkFailed(binaries[i], e.value));
        }
        i := i + 1;
      }
      return None;
    }
  }

  /** The entries Relinked sets, and that it leaves every other entry alone. */
  lemma {:induction false} RelinkedAt(t: Tree, storePath: Path, binDir: Path, bins: seq<string>, q: Path)
    ensures q in Relinked(t, storePath, binDir, bins) <==> q in t || exists b | b in bins :: q == binDir + [b]
    ensures (exists b | b in bins :: q == binDir + [b]) ==>
              Relinked(t, storePath, binDir, bins)[q] == Link(storePath + [q[|q| - 1]])
    ensures q in t && (forall b | b in bins :: q != binDir + [b]) ==> Relinked(t, storePath, binDir, bins)[q] == t[q]
    decreases |bins|
  {
    if bins != [] {
      var b0 := bins[0];
      var t' := t[binDir + [b0] := Link(storePath + [b0])];
      RelinkedAt(t', storePath, binDir, bins[1..], q);
      forall b | b in bins ensures b == b0 || b in bins[1..] {
        if b != b0 {
          var k :| 0 <= k < |bins| && bins[k] == b;
          assert bins[1..][k - 1] == b;
        }
      }
      if q == binDir + [b0] {
        assert q[|q| - 1] == b0;
      }
    }
  }

  /** A loop that succeeds sets exactly the entries Relinked describes. */
  lemma {:induction false} LinkAllSucceeds(t: Tree, storePath: Path, binDir: Path, bins: seq<string>)
    requires LinkAll(t, storePath, binDir, bins).err.None?
    ensures LinkAll(t, storePath, binDir, bins).tree == Relinked(t, storePath, binDir, bins)
    decreases |bins|
  {
    if bins != [] {
      var o := Relink(t, storePath + [bins[0]], binDir + [bins[0]]);
      LinkAllSucceeds(o.tree, storePath, binDir, bins[1..]);
    }
  }

  /**
   * After Link returns nil the bin directory resolves to a directory,
   * each `bin/b` is a link to `storePath/b`, and every other entry is as
   * MkdirAll left it.
   */
  lemma LinkPlacesLinks(t: Tree, root: Path, storePath: Path, bins: seq<string>)
    requires LinkOutcome(t, root, storePath, bins).err.None?
    ensures var t1 := MkdirAll(t, BinDir(root)).value;
      var r := LinkOutcome(t, root, storePath, bins).tree;
      Stat(t1, BinDir(root)) == Found(Stat(t1, BinDir(root)).path, Dir)
      && (forall b | b in bins :: BinDir(root) + [b] in r && r[BinDir(root) + [b]] == Link(storePath + [b]))
      && (forall q | q in t1 && (forall b | b in bins :: q != BinDir(root) + [b]) :: q in r && r[q] == t1[q])
      && (forall q | q in r && q !in t1 :: exists b | b in bins :: q == BinDir(root) + [b])
  {
    var t1 := MkdirAll(t, BinDir(root)).value;
    var r := LinkOutcome(t, root, storePath, bins).tree;
    LinkAllSucceeds(t1, storePath, BinDir(root), bins);
    forall b | b in bins ensures BinDir(root) + [b] in r && r[BinDir(root) + [b]] == Link(storePath + [b]) {
      RelinkedAt(t1, storePath, BinDir(root), bins, BinDir(root) + [b]);
    }
    forall q | q in t1 && (forall b | b in bins :: q != BinDir(root) + [b]) ensures q in r && r[q] == t1[q] {
      RelinkedAt(t1, storePath, BinDir(root), bins, q);
    }
    forall q | q in r && q !in t1 ensures exists b | b in bins :: q == BinDir(root) + [b] {
      RelinkedAt(t1, storePath, BinDir(root), bins, q);
    }
  }

  /** Relinking the same names twice: the second set of targets wins. */
  lemma {:induction false} RelinkedTwice(t: Tree, a: Path, b: Path, binDir: Path, bins: seq<string>)
    ensures Relinked(Relinked(t, a, binDir, bins), b, binDir, bins) == Relinked(t, b, binDir, bins)
  {
    var ra := Relinked(t, a, binDir, bins);
    var rab := Relinked(ra, b, binDir, bins);
    var rb := Relinked(t, b, binDir, bins);
    forall q ensures (q in rab <==> q in rb) && (q in rb ==> rab[q] == rb[q]) {
      RelinkedAt(ra, b, binDir, bins, q);
      RelinkedAt(t, a, binDir, bins, q);
      RelinkedAt(t, b, binDir, bins, q);
    }
  }

  /** Remove-then-Symlink at `p` succeeds. */
  predicate Linkable(t: Tree, p: Path) {
    ParentIsDir(t, p) && (p in t ==> !(t[p].Dir? && HasChildren(t, p)))
  }

  /** Linking one name leaves the other names of the same directory as linkable as they were. */
  lemma LinkableAfterLink(t: Tree, p: Path, target: Path, q: Path)
    requires Linkable(t, p) && |q| == |p| && Parent(q) == Parent(p)
    ensures Linkable(t[p := Link(target)], q) <==> q == p || Linkable(t, q)
  {
    var t' := t[p := Link(target)];
    if q != p {
      assert Parent(q) != p;
      assert HasChildren(t', q) ==> HasChildren(t, q);
    }
  }

  /** The loop of Link succeeds exactly when every name can be linked in the tree it starts from. */
  lemma {:induction false} LinkAllIff(t: Tree, storePath: Path, binDir: Path, bins: seq<string>)
    ensures LinkAll(t, storePath, binDir, bins).err.None? <==> forall b | b in bins :: Linkable(t, binDir + [b])
    decreases |bins|
  {
    if bins != [] {
      var p := binDir + [bins[0]];
      var o := Relink(t, storePath + [bins[0]], p);
      if o.err.None? {
        LinkAllIff(o.tree, storePath, binDir, bins[1..]);
        forall b | b in bins[1..] ensures Linkable(o.tree, binDir + [b]) <==> b == bins[0] || Linkable(t, binDir + [b]) {
          assert Parent(binDir + [b]) == binDir == Parent(p);
          LinkableAfterLink(t, p, storePath + [bins[0]], binDir + [b]);
        }
        assert forall b | b in bins :: b == bins[0] || b in bins[1..];
      }
    }
  }

  /** Every name Relinked set can be linked again. */
  lemma RelinkedLinkable(t: Tree, storePath: Path, binDir: Path, bins: seq<string>)
    requires forall b | b in bins :: Linkable(t, binDir + [b])
    ensures forall b | b in bins :: Linkable(Relinked(t, storePath, binDir, bins), binDir + [b])
  {
    var r := Relinked(t, storePath, binDir, bins);
    forall b | b in bins ensures Linkable(r, binDir + [b]) {
      var p := binDir + [b];
      assert Parent(p) == binDir;
      RelinkedAt(t, storePath, binDir, bins, p);
      if |p| > 1 {
        RelinkedAt(t, storePath, binDir, bins, binDir);
        assert forall c | c in bins :: binDir != binDir + [c];
      }
    }
  }

  /**
   * A second Link of the same names after a successful one gives what
   * linking the original tree to the second store path gives: the last
   * writer wins, and linking the same store path again changes nothing.
   */
  lemma LinkTwice(t: Tree, root: Path, a: Path, b: Path, bins: seq<string>)
    requires LinkOutcome(t, root, a, bins).err.None?
    ensures LinkOutcome(LinkOutcome(t, root, a, bins).tree, root, b, bins) == LinkOutcome(t, root, b, bins)
  {
    var binDir := BinDir(root);
    var t1 := MkdirAll(t, binDir).value;
    var r := LinkOutcome(t, root, a, bins).tree;
    LinkAllSucceeds(t1, a, binDir, bins);
    LinkAllIff(t1, a, binDir, bins);
    LinkAllIff(t1, b, binDir, bins);
    if bins == [] {
      assert r == t1;
    } else {
      assert Linkable(t1, binDir + [bins[0]]);
      assert Parent(binDir + [bins[0]]) == binDir;
      RelinkedAt(t1, a, binDir, bins, binDir);
      assert forall c | c in bins :: binDir != binDir + [c];
      assert Stat(r, binDir) == Found(binDir, Dir);
    }
    assert MkdirAll(r, binDir) == Ok(r);
    RelinkedLinkable(t1, a, binDir, bins);
    LinkAllIff(r, b, binDir, bins);
    LinkAllSucceeds(r, b, binDir, bins);
    LinkAllSucceeds(t1, b, binDir, bins);
    RelinkedTwice(t1, a, b, binDir, bins);
  }

  /** Link is idempotent. */
  lemma LinkIdempotent(t: Tree, root: Path, storePath: Path, bins: seq<string>)
    requires LinkOutcome(t, root, storePath, bins).err.None?
    ensures var r := LinkOutcome(t, root, storePath, bins).tree;
      LinkOutcome(r, root, storePath, bins) == Linked(r, None)
  {
    LinkTwice(t, root, storePath, storePath, bins);
  }

  /**
   * In a valid tree the loop stops at the first name it cannot link: the
   * error names it, the names before it are linked, and nothing else
   * changed.
   */
  lemma {:induction false} LinkAllStops(t: Tree, storePath: Path, binDir: Path, bins: seq<string>)
    requires Valid(t) && LinkAll(t, storePath, binDir, bins).err.Some?
    ensures var r := LinkAll(t, storePath, binDir, bins);
      r.err.value.LinkFailed?
      && exists k | 0 <= k < |bins| :: r.err.value.binary == bins[k] && r.tree == Relinked(t, storePath, binDir, bins[..k])
    decreases |bins|
  {
    var p := binDir + [bins[0]];
    var o := Relink(t, storePath + [bins[0]], p);
    if o.err.Some? {
      assert bins[..0] == [];
    } else {
      LinkAllStops(o.tree, storePath, binDir, bins[1..]);
      var r := LinkAll(o.tree, storePath, binDir, bins[1..]);
      var k :| 0 <= k < |bins[1..]| && r.err.value.binary == bins[1..][k] && r.tree == Relinked(o.tree, storePath, binDir, bins[1..][..k]);
      assert bins[..k + 1][0] == bins[0] && bins[..k + 1][1..] == bins[1..][..k];
      assert r.tree == Relinked(t, storePath, binDir, bins[..k + 1]);
    }
  }

  /** A failed Link names a requested binary; the links made before it stay. */
  lemma LinkFailure(t: Tree, root: Path, storePath: Path, bins: seq<string>)
    requires Valid(t) && LinkOutcome(t, root, storePath, bins).err.Some?
    requires LinkOutcome(t, root, storePath, bins).err.value.LinkFailed?
    ensures var r := LinkOutcome(t, root, storePath, bins);
      exists k | 0 <= k < |bins| ::
        r.err.value.binary == bins[k] && r.tree == Relinked(MkdirAll(t, BinDir(root)).value, storePath, BinDir(root), bins[..k])
  {
    LinkAllStops(MkdirAll(t, BinDir(root)).value, storePath, BinDir(root), bins);
  }
}

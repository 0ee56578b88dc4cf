/**
 * The file system as one mutable object: every call of the `os`
 * package the package manager makes becomes a method that replaces the
 * tree by the one the matching function of `Os` gives.
 */
module Disk {
  import opened Wrappers
  import opened Strings
  import opened Paths
  import opened Os

  /** The state after a call: the new tree on success, the old one and the error otherwise. */
  predicate Took(r: Result<Tree, FsError>, before: Tree, after: Tree, err: Option<FsError>) {
    match r
    case Ok(t) => after == t && err.None?
    case Err(e) => after == before && err == Some(e)
  }

  class FileSystem {
    var tree: Tree

    constructor (t: Tree)
      ensures tree == t
    {
      tree := t;
    }

    method MkdirAll(p: Path) returns (err: Option<FsError>)
      modifies this
      ensures Took(Os.MkdirAll(old(tree), p), old(tree), tree, err)
    {
      match Os.MkdirAll(tree, p)
      case Ok(t) => tree := t; err := None;
      case Err(e) => err := Some(e);
    }

    method Remove(p: Path) returns (err: Option<FsError>)
      modifies this
      ensures Took(Os.Remove(old(tree), p), old(tree), tree, err)
    {
      match Os.Remove(tree, p)
      case Ok(t) => tree := t; err := None;
      case Err(e) => err := Some(e);
    }

    method RemoveAll(p: Path) returns (err: Option<FsError>)
      modifies this
      ensures Took(Os.RemoveAll(old(tree), p), old(tree), tree, err)
    {
      match Os.RemoveAll(tree, p)
      case Ok(t) => tree := t; err := None;
      case Err(e) => err := Some(e);
    }

    method Symlink(target: Path, p: Path) returns (err: Option<FsError>)
      modifies this
      ensures Took(Os.Symlink(old(tree), target, p), old(tree), tree, err)
    {
      match Os.Symlink(tree, target, p)
      case Ok(t) => tree := t; err := None;
      case Err(e) => err := Some(e);
    }

    method Chmod(p: Path, mode: nat) returns (err: Option<FsError>)
      modifies this
      ensures Took(Os.Chmod(old(tree), p, mode), old(tree), tree, err)
    {
      match Os.Chmod(tree, p, mode)
      case Ok(t) => tree := t; err := None;
      case Err(e) => err := Some(e);
    }

    /** os.OpenFile with O_CREATE|O_RDWR|O_TRUNC, then io.Copy of `c`. */
    method WriteFile(p: Path, c: Content, perm: nat) returns (err: Option<FsError>)
      modifies this
      ensures Took(Os.WriteFile(old(tree), p, c, perm), old(tree), tree, err)
    {
      match Os.WriteFile(tree, p, c, perm)
      case Ok(t) => tree := t; err := None;
      case Err(e) => err := Some(e);
    }

    method Rename(src: Path, dst: Path) returns (err: Option<FsError>)
      requires src in tree ==> !tree[src].Dir?
      modifies this
      ensures Took(Os.RenameNonDir(old(tree), src, dst), old(tree), tree, err)
    {
      match Os.RenameNonDir(tree, src, dst)
      case Ok(t) => tree := t; err := None;
      case Err(e) => err := Some(e);
    }

    /** The copyFile helper (open, create, copy). */
    method CopyFile(src: Path, dst: Path) returns (err: Option<FsError>)
      modifies this
      ensures Os.CopyFile(old(tree), src, dst) == Outcome(tree, err)
    {
      var out := Os.CopyFile(tree, src, dst);
      tree := out.tree;
      err := out.err;
    }

    /** os.ReadDir: the names in a directory, sorted. */
    method ReadDir(p: Path) returns (r: Result<seq<string>, FsError>)
      ensures r.Ok? <==> ReadDirNames(tree, p).Ok?
      ensures r.Ok? ==> r.value == SortedStrings(ReadDirNames(tree, p).value)
      ensures r.Err? ==> r.error == ReadDirNames(tree, p).error
    {
      match ReadDirNames(tree, p)
      case Err(e) => r := Err(e);
      case Ok(names) =>
        var rest := names;
        var out: seq<string> := [];
        while rest != {}
          invariant rest <= names
          invariant StrictlySorted(out)
          invariant forall x :: x in out <==> x in names && x !in rest
          invariant forall i, x | 0 <= i < |out| && x in rest :: StrLt(out[i], x)
          decreases |rest|
        {
          LeastExists(rest);
          var m :| m in rest && IsLeast(m, rest);
          forall i, x | 0 <= i < |out| && x in rest - {m}
            ensures StrLt(out[i], x)
          {
          }
          forall x | x in rest - {m} ensures StrLt(m, x) {
          }
          out := out + [m];
          rest := rest - {m};
        }
        SortedUnique(out, SortedStrings(names));
        r := Ok(out);
    }
  }
}

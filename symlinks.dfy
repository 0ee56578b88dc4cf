/**
 * The symbolic links of the default profile (pkg/symlinks/manager.go):
 * creating, removing and listing them, and the sweep that removes broken
 * links and the command links of containers that are no longer configured.
 */
module Symlinks {
  import opened Wrappers
  import opened Strings
  import opened Paths
  import opened Os
  import opened Disk
  import Config

  function ProfileBin(baseDir: Path): Path {
    baseDir + ["profiles", "default", "bin"]
  }

  function StoreDir(baseDir: Path): Path {
    baseDir + ["store"]
  }

  function ContainerExecPath(baseDir: Path): Path {
    baseDir + ["bin", "container-exec"]
  }

  /**
   * filepath.Rel(store, target) split at the separator: the first part
   * names the store directory; "." when the target is the store itself.
   */
  function StoreDirName(rel: Path): string {
    if rel == [] then "." else rel[0]
  }

  /** Join(store, parts[0], parts[last]): the entry whose link marks a container store directory. */
  function MarkerPath(store: Path, rel: Path): (p: Path)
    ensures IsPrefix(store, p) && |p| <= |store| + 2
  {
    if rel == [] then store else store + [rel[0], rel[|rel| - 1]]
  }

  /** Some configured container `c` owns the store directory: its name starts with `c + "-"`. */
  predicate ActiveMatch(dirName: string, active: set<string>) {
    exists c | c in active :: HasPrefix(dirName, c + "-")
  }

  /** A link into the store whose store directory holds a link to container-exec. */
  predicate IsContainerLink(t: Tree, baseDir: Path, target: Path) {
    var store := StoreDir(baseDir);
    IsPrefix(store, target)
    && Readlink(t, MarkerPath(store, target[|store|..])) == Ok(ContainerExecPath(baseDir))
  }

  /**
   * shouldRemoveSymlink over a snapshot of the tree: only symbolic links
   * are candidates; a link whose target does not exist goes; a container
   * command link goes when no configured container owns its store
   * directory; anything else stays.
   */
  function ShouldRemove(t: Tree, baseDir: Path, name: string, active: set<string>): (r: bool)
    ensures var p := ProfileBin(baseDir) + [name];
      r <==> p in t && t[p].Link?
             && (IsNotExist(Stat(t, p))
                 || (IsContainerLink(t, baseDir, t[p].target)
                     && !ActiveMatch(StoreDirName(t[p].target[|StoreDir(baseDir)|..]), active)))
  {
    var symlinkPath := ProfileBin(baseDir) + [name];
    match Lstat(t, symlinkPath)
    case Err(_) => false
    case Ok(info) =>
      if !info.Link? then false
      else
        match Readlink(t, symlinkPath)
        case Err(_) => false
        case Ok(target) =>
          if IsNotExist(Stat(t, symlinkPath)) then true
          else
            var storePath := StoreDir(baseDir);
            if !IsPrefix(storePath, target) then false
            else
              var rel := target[|storePath|..];
              var storeDirName := StoreDirName(rel);
              match Readlink(t, MarkerPath(storePath, rel))
              case Err(_) => false
              case Ok(linkTarget) =>
                if linkTarget != ContainerExecPath(baseDir) then false
                else !ActiveMatch(storeDirName, active)
  }

  /** Remove, ignoring a failure, when the entry is selected on the current tree. */
  function SweepOne(t: Tree, baseDir: Path, name: string, active: set<string>): Tree {
    if ShouldRemove(t, baseDir, name, active) then
      match Remove(t, ProfileBin(baseDir) + [name])
      case Ok(t1) => t1
      case Err(_) => t
    else t
  }

  /** The loop of CleanupOrphanedSymlinks, each decision taken on the tree as it is by then. */
  function SweepNames(t: Tree, baseDir: Path, names: seq<string>, active: set<string>): Tree
    decreases |names|
  {
    if names == [] then t
    else SweepNames(SweepOne(t, baseDir, names[0], active), baseDir, names[1..], active)
  }

  datatype Swept = Swept(tree: Tree, err: Option<FsError>)

  /** CleanupOrphanedSymlinks with the configured container names as `active`. */
  ghost function Sweep(t: Tree, baseDir: Path, active: set<string>): (r: Swept)
    ensures IsNotExist(Stat(t, ProfileBin(baseDir))) ==> r == Swept(t, None)
  {
    var profileBin := ProfileBin(baseDir);
    if IsNotExist(Stat(t, profileBin)) then Swept(t, None)
    else
      match ReadDirNames(t, profileBin)
      case Err(e) => Swept(t, Some(e))
      case Ok(names) => Swept(SweepNames(t, baseDir, SortedStrings(names), active), None)
  }

  /** The names among `names` whose entries in `dir` are symbolic links, in order. */
  function LinkNames(t: Tree, dir: Path, names: seq<string>): (r: seq<string>)
    ensures |r| <= |names|
    decreases |names|
  {
    if names == [] then []
    else
      var last := names[|names| - 1];
      var init := LinkNames(t, dir, names[..|names| - 1]);
      if dir + [last] in t && t[dir + [last]].Link? then init + [last] else init
  }

  /** One more listed name extends the listing by that name exactly when it is a link. */
  lemma LinkNamesStep(t: Tree, dir: Path, names: seq<string>, i: nat)
    requires i < |names|
    ensures LinkNames(t, dir, names[..i + 1])
      == LinkNames(t, dir, names[..i]) + (if dir + [names[i]] in t && t[dir + [names[i]]].Link? then [names[i]] else [])
  {
    assert names[..i + 1][..i] == names[..i];
  }

  /** ListSymlinks reports exactly the listed names that are links. */
  lemma {:induction false} LinkNamesMembers(t: Tree, dir: Path, names: seq<string>, x: string)
    ensures x in LinkNames(t, dir, names) <==> x in names && dir + [x] in t && t[dir + [x]].Link?
    decreases |names|
  {
    if names != [] {
      var init := names[..|names| - 1];
      assert names == init + [names[|names| - 1]];
      LinkNamesMembers(t, dir, init, x);
    }
  }

  /** The listing keeps directory order: each name it reports comes after the ones before it. */
  lemma {:induction false} LinkNamesSubsequence(t: Tree, dir: Path, names: seq<string>)
    requires StrictlySorted(names)
    ensures StrictlySorted(LinkNames(t, dir, names))
    decreases |names|
  {
    if names != [] {
      var init := names[..|names| - 1];
      var last := names[|names| - 1];
      LinkNamesSubsequence(t, dir, init);
      var r0 := LinkNames(t, dir, init);
      forall i | 0 <= i < |r0|
        ensures StrLt(r0[i], last)
      {
        LinkNamesMembers(t, dir, init, r0[i]);
        var k :| 0 <= k < |init| && init[k] == r0[i];
      }
    }
  }

  class SymlinkManager {
    const baseDir: Path

    constructor (baseDir: Path)
      ensures this.baseDir == baseDir
    {
      this.baseDir := baseDir;
    }

    /** `cfg` is what loading the configuration gave; a failed load leaves no container active. */
    method CleanupOrphanedSymlinks(fs: FileSystem, cfg: Option<Config.Config>) returns (err: Option<FsError>)
      modifies fs
      ensures Swept(fs.tree, err) == Sweep(old(fs.tree), baseDir, Config.ActiveContainers(cfg))
    {
      var profileBin := ProfileBin(baseDir);
      if IsNotExist(Stat(fs.tree, profileBin)) {
        return None;
      }
      var active := Config.ActiveContainers(cfg);
      var entries := fs.ReadDir(profileBin);
      if entries.Err? {
        return Some(entries.error);
      }
      var names := entries.value;
      ghost var t0 := fs.tree;
      var i := 0;
      while i < |names|
        invariant 0 <= i <= |names|
        invariant SweepNames(fs.tree, baseDir, names[i..], active) == SweepNames(t0, baseDir, names, active)
        decreases |names| - i
      {
        assert names[i..][1..] == names[i + 1..];
        if ShouldRemove(fs.tree, baseDir, names[i], active) {
          var _ := fs.Remove(profileBin + [names[i]]);
        }
        i := i + 1;
      }
      return None;
    }

    method RemoveSymlink(fs: FileSystem, name: string) returns (err: Option<FsError>)
      modifies fs
      ensures Took(Os.Remove(old(fs.tree), ProfileBin(baseDir) + [name]), old(fs.tree), fs.tree, err)
    {
      err := fs.Remove(ProfileBin(baseDir) + [name]);
    }

    /** Replace whatever is at `name` by a link to `target`. */
    method CreateSymlink(fs: FileSystem, name: string, target: Path) returns (err: Option<FsError>)
      modifies fs
      ensures Outcome(fs.tree, err) == Relink(old(fs.tree), target, ProfileBin(baseDir) + [name])
    {
      var symlinkPath := ProfileBin(baseDir) + [name];
      var _ := fs.Remove(symlinkPath);
      err := fs.Symlink(target, symlinkPath);
    }

    method SymlinkExists(fs: FileSystem, name: string) returns (exists_: bool)
      ensures exists_ <==> ProfileBin(baseDir) + [name] in fs.tree && fs.tree[ProfileBin(baseDir) + [name]].Link?
    {
      var info := Lstat(fs.tree, ProfileBin(baseDir) + [name]);
      return info.Ok? && info.value.Link?;
    }

    /** The names of the links in the profile bin directory, in directory order. */
    method ListSymlinks(fs: FileSystem) returns (r: Result<seq<string>, FsError>)
      ensures r.Err? <==> ReadDirNames(fs.tree, ProfileBin(baseDir)).Err?
      ensures r.Ok? ==> r.value == LinkNames(fs.tree, ProfileBin(baseDir), SortedStrings(ReadDirNames(fs.tree, ProfileBin(baseDir)).value))
    {
      var profileBin := ProfileBin(baseDir);
      var entries := fs.ReadDir(profileBin);
      if entries.Err? {
        return Err(entries.error);
      }
      var names := entries.value;
      var symlinks: seq<string> := [];
      var i := 0;
      while i < |names|
        invariant 0 <= i <= |names|
        invariant symlinks == LinkNames(fs.tree, profileBin, names[..i])
        decreases |names| - i
      {
        var name := names[i];
        LinkNamesStep(fs.tree, profileBin, names, i);
        var info := Lstat(fs.tree, profileBin + [name]);
        if info.Ok? && info.value.Link? {
          symlinks := symlinks + [name];
        }
        i := i + 1;
      }
      assert names[..|names|] == names;
      return Ok(symlinks);
    }
  }
}

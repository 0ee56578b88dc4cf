/**
 * The content store (pkg/store/store.go): installs a downloaded package
 * into `root/{name}-{version}`, either by copying a single binary or by
 * extracting a .tar.gz into a scratch directory and moving the requested
 * binaries out of it.
 */
module Store {
  import opened Wrappers
  import opened Strings
  import opened Paths
  import opened Os
  import opened Disk

  datatype StoreError =
    | FsErr(e: FsError)
    | GzipErr                     // "failed to create gzip reader"
    | TarErr                      // "failed to read tar"
    | BinaryNotFound(name: string) // "binary %s not found in archive"

  /** The tree an install leaves behind and what it returns. */
  datatype Installed = Installed(tree: Tree, result: Result<Path, StoreError>)

  /** The tree after a run of steps and the error that stopped it, if any. */
  datatype Progress = Progress(tree: Tree, err: Option<StoreError>)

  /** What findAndMoveBinary leaves behind and returns. */
  datatype Moved = Moved(tree: Tree, found: bool, err: Option<FsError>)

  function StorePath(root: Path, name: string, version: string): (p: Path)
    ensures |p| == |root| + 1 && Parent(p) == root
  {
    root + [name + "-" + version]
  }

  /** `storePath + ".tmp"`: a sibling of the store path. */
  function TempDir(storePath: Path): (p: Path)
    requires |storePath| > 0
    ensures |p| == |storePath| && p != storePath && Parent(p) == Parent(storePath)
  {
    var p := Parent(storePath) + [Last(storePath) + ".tmp"];
    assert Last(p) != Last(storePath);
    p
  }

  /** The archive route: the path ends in ".tar.gz" or its extension is ".tgz". */
  predicate IsArchive(download: Path) {
    var base := if |download| == 0 then "" else Last(download);
    HasSuffix(base, ".tar.gz") || Ext(base) == ".tgz"
  }

  /**
   * One tar header: directories and regular files are materialised at
   * filepath.Join(dest, name), anything else skipped. Nothing checks that
   * the joined target stays within `dest`.
   */
  function ExtractEntry(t: Tree, dest: Path, e: TarEntry): Outcome {
    var target := JoinPath(dest, e.name);
    match e.kind
    case TypeDir =>
      (match MkdirAll(t, target)
       case Ok(t1) => Outcome(t1, None)
       case Err(x) => Outcome(t, Some(x)))
    case TypeReg(body, mode) =>
      if target == [] then Outcome(t, Some(EISDIR))
      else
        (match MkdirAll(t, Parent(target))
         case Err(x) => Outcome(t, Some(x))
         case Ok(t1) =>
           (match WriteFile(t1, target, body, mode)
            case Ok(t2) => Outcome(t2, None)
            case Err(x) => Outcome(t1, Some(x))))
    case TypeOther(_) => Outcome(t, None)
  }

  /** The header loop of extractTarGz: stops at the first failing entry. */
  function ExtractEntries(t: Tree, dest: Path, es: seq<TarEntry>): (r: Progress)
    ensures r.err.Some? ==> r.err.value.FsErr?
    decreases |es|
  {
    if es == [] then Progress(t, None)
    else
      var o := ExtractEntry(t, dest, es[0]);
      if o.err.Some? then Progress(o.tree, Some(FsErr(o.err.value)))
      else ExtractEntries(o.tree, dest, es[1..])
  }

  /** The header lands within `dest` (at it or below it), or is skipped anyway. */
  predicate Stays(dest: Path, e: TarEntry) {
    e.kind.TypeOther? || IsPrefix(dest, JoinPath(dest, e.name))
  }

  /** ExtractEntry guarded as intended: a header whose target leaves `dest` is refused. */
  function ExtractEntryConfined(t: Tree, dest: Path, e: TarEntry): (o: Outcome)
    ensures !Stays(dest, e) ==> o == Outcome(t, Some(EINVAL))
    ensures Stays(dest, e) ==> o == ExtractEntry(t, dest, e)
  {
    if Stays(dest, e) then ExtractEntry(t, dest, e) else Outcome(t, Some(EINVAL))
  }

  /** The header loop over ExtractEntryConfined. */
  function ExtractEntriesConfined(t: Tree, dest: Path, es: seq<TarEntry>): (r: Progress)
    ensures r.err.Some? ==> r.err.value.FsErr?
    decreases |es|
  {
    if es == [] then Progress(t, None)
    else
      var o := ExtractEntryConfined(t, dest, es[0]);
      if o.err.Some? then Progress(o.tree, Some(FsErr(o.err.value)))
      else ExtractEntriesConfined(o.tree, dest, es[1..])
  }

  /** extractTarGz: open the download, decompress, and materialise its entries under `dest`. */
  function Extract(t: Tree, download: Path, dest: Path): (r: Progress)
    ensures r.err.Some? ==> !r.err.value.BinaryNotFound?
  {
    match Stat(t, download)
    case Missing(_, e) => Progress(t, Some(FsErr(e)))
    case TooManyLinks => Progress(t, Some(FsErr(ELOOP)))
    case Found(_, n) =>
      if !(n.File? && n.content.TarGz?) then Progress(t, Some(GzipErr))
      else
        var p := ExtractEntries(t, dest, n.content.entries);
        if p.err.None? && n.content.tail == Corrupt then Progress(p.tree, Some(TarErr)) else p
  }

  /** filepath.Walk stopped at the first match: fails only when the root cannot be lstat'ed. */
  ghost function Walk(t: Tree, root: Path, b: string): Result<Option<Path>, FsError> {
    if root != [] && root !in t then Err(MissingErr(t, root))
    else Ok(FirstMatch(t, root, b))
  }

  /**
   * findAndMoveBinary: the first match is renamed to `storePath/b`, or
   * copied there when the rename fails, and made executable.
   */
  ghost function FindAndMove(t: Tree, tmp: Path, storePath: Path, b: string): Moved {
    match Walk(t, tmp, b)
    case Err(e) => Moved(t, false, Some(e))
    case Ok(None) => Moved(t, false, None)
    case Ok(Some(src)) =>
      var dst := storePath + [b];
      var out :=
        match RenameNonDir(t, src, dst)
        case Ok(t1) => Outcome(t1, None)
        case Err(_) => CopyFile(t, src, dst);
      if out.err.Some? then Moved(out.tree, false, out.err)
      else
        match Chmod(out.tree, dst, Mode0755)
        case Err(e) => Moved(out.tree, false, Some(e))
        case Ok(t2) => Moved(t2, true, None)
  }

  /** The loop over binaryNames in installTarGz: stops at the first failure or missing name. */
  ghost function MoveAll(t: Tree, tmp: Path, storePath: Path, names: seq<string>): Progress
    decreases |names|
  {
    if names == [] then Progress(t, None)
    else
      var m := FindAndMove(t, tmp, storePath, names[0]);
      if m.err.Some? then Progress(m.tree, Some(FsErr(m.err.value)))
      else if !m.found then Progress(m.tree, Some(BinaryNotFound(names[0])))
      else MoveAll(m.tree, tmp, storePath, names[1..])
  }

  /** The deferred os.RemoveAll of the scratch directory; its error is dropped. */
  function Cleanup(t: Tree, tmp: Path, r: Result<Path, StoreError>): (i: Installed)
    ensures i.result == r
    ensures tmp in t ==> forall q | q in i.tree :: !IsPrefix(tmp, q)
  {
    match RemoveAll(t, tmp)
    case Ok(t1) => Installed(t1, r)
    case Err(_) => Installed(t, r)
  }

  ghost function InstallTarGzOutcome(t: Tree, download: Path, storePath: Path, names: seq<string>): (r: Installed)
    requires |storePath| > 0
    ensures r.result.Ok? ==> r.result.value == storePath
  {
    var tmp := TempDir(storePath);
    match RemoveAll(t, tmp)
    case Err(e) => Installed(t, Err(FsErr(e)))
    case Ok(t1) =>
      match MkdirAll(t1, tmp)
      case Err(e) => Installed(t1, Err(FsErr(e)))
      case Ok(t2) => ExtractAndMove(t2, download, tmp, storePath, names)
  }

  /** installTarGz once the scratch directory exists; every return runs the deferred cleanup. */
  ghost function ExtractAndMove(t: Tree, download: Path, tmp: Path, storePath: Path, names: seq<string>): (r: Installed)
    ensures r.result.Ok? ==> r.result.value == storePath
  {
    var x := Extract(t, download, tmp);
    if x.err.Some? then Cleanup(x.tree, tmp, Err(x.err.value))
    else MoveIntoStore(x.tree, tmp, storePath, names)
  }

  /** installTarGz after extraction: create the store directory, then move the binaries. */
  ghost function MoveIntoStore(t: Tree, tmp: Path, storePath: Path, names: seq<string>): (r: Installed)
    ensures r.result.Ok? ==> r.result.value == storePath
  {
    match MkdirAll(t, storePath)
    case Err(e) => Cleanup(t, tmp, Err(FsErr(e)))
    case Ok(t3) =>
      var m := MoveAll(t3, tmp, storePath, names);
      Cleanup(m.tree, tmp, if m.err.Some? then Err(m.err.value) else Ok(storePath))
  }

  function InstallBinaryOutcome(t: Tree, name: string, download: Path, storePath: Path): (r: Installed)
    ensures r.result.Ok? ==> r.result.value == storePath
    ensures r.result.Err? ==> r.result.error.FsErr?
  {
    match MkdirAll(t, storePath)
    case Err(e) => Installed(t, Err(FsErr(e)))
    case Ok(t1) =>
      var dest := storePath + [name];
      var c := CopyFile(t1, download, dest);
      if c.err.Some? then Installed(c.tree, Err(FsErr(c.err.value)))
      else
        match Chmod(c.tree, dest, Mode0755)
        case Err(e) => Installed(c.tree, Err(FsErr(e)))
        case Ok(t2) => Installed(t2, Ok(storePath))
  }

  /** Store.Install: the fast path when anything resolves at the store path, else one of the two routes. */
  ghost function InstallOutcome(t: Tree, root: Path, name: string, version: string, download: Path, names: seq<string>): (r: Installed)
    ensures r.result.Ok? ==> r.result.value == StorePath(root, name, version)
    ensures Stat(t, StorePath(root, name, version)).Found? ==> r == Installed(t, Ok(StorePath(root, name, version)))
  {
    var storePath := StorePath(root, name, version);
    if Stat(t, storePath).Found? then Installed(t, Ok(storePath))
    else if IsArchive(download) then InstallTarGzOutcome(t, download, storePath, names)
    else InstallBinaryOutcome(t, name, download, storePath)
  }

  class Store {
    const root: Path

    constructor (root: Path)
      ensures this.root == root
    {
      this.root := root;
    }

    method Install(fs: FileSystem, name: string, version: string, downloadPath: Path, binaryNames: seq<string>)
      returns (r: Result<Path, StoreError>)
      modifies fs
      ensures Installed(fs.tree, r) == InstallOutcome(old(fs.tree), root, name, version, downloadPath, binaryNames)
    {
      var storePath := StorePath(root, name, version);
      if Stat(fs.tree, storePath).Found? {
        return Ok(storePath);
      }
      if IsArchive(downloadPath) {
        r := InstallTarGz(fs, downloadPath, storePath, binaryNames);
      } else {
        r := InstallBinary(fs, name, downloadPath, storePath);
      }
    }

    method InstallBinary(fs: FileSystem, name: string, downloadPath: Path, storePath: Path)
      returns (r: Result<Path, StoreError>)
      modifies fs
      ensures Installed(fs.tree, r) == InstallBinaryOutcome(old(fs.tree), name, downloadPath, storePath)
    {
      var err := fs.MkdirAll(storePath);
      if err.Some? {
        return Err(FsErr(err.value));
      }
      var destPath := storePath + [name];
      err := fs.CopyFile(downloadPath, destPath);
      if err.Some? {
        return Err(FsErr(err.value));
      }
      err := fs.Chmod(destPath, Mode0755);
      if err.Some? {
        return Err(FsErr(err.value));
      }
      return Ok(storePath);
    }

    method InstallTarGz(fs: FileSystem, downloadPath: Path, storePath: Path, binaryNames: seq<string>)
      returns (r: Result<Path, StoreError>)
      requires |storePath| > 0
      modifies fs
      ensures Installed(fs.tree, r) == InstallTarGzOutcome(old(fs.tree), downloadPath, storePath, binaryNames)
    {
      var tempDir := TempDir(storePath);
      var err := fs.RemoveAll(tempDir);
      if err.Some? {
        return Err(FsErr(err.value));
      }
      err := fs.MkdirAll(tempDir);
      if err.Some? {
        return Err(FsErr(err.value));
      }
      var xerr := ExtractTarGz(fs, downloadPath, tempDir);
      if xerr.Some? {
        r := Err(xerr.value);
      } else {
        err := fs.MkdirAll(storePath);
        if err.Some? {
          r := Err(FsErr(err.value));
        } else {
          var merr := MoveBinaries(fs, tempDir, storePath, binaryNames);
          r := if merr.Some? then Err(merr.value) else Ok(storePath);
        }
      }
      // the deferred os.RemoveAll(tempDir)
      var _ := fs.RemoveAll(tempDir);
    }

    /** The loop over binaryNames in installTarGz. */
    method MoveBinaries(fs: FileSystem, tempDir: Path, storePath: Path, binaryNames: seq<string>)
      returns (err: Option<StoreError>)
      modifies fs
      ensures Progress(fs.tree, err) == MoveAll(old(fs.tree), tempDir, storePath, binaryNames)
    {
      err := None;
      var i := 0;
      while i < |binaryNames| && err.None?
        invariant 0 <= i <= |binaryNames|
        invariant err.None? ==> MoveAll(fs.tree, tempDir, storePath, binaryNames[i..]) == MoveAll(old(fs.tree), tempDir, storePath, binaryNames)
        invariant err.Some? ==> Progress(fs.tree, err) == MoveAll(old(fs.tree), tempDir, storePath, binaryNames)
        decreases |binaryNames| - i
      {
        assert binaryNames[i..][1..] == binaryNames[i + 1..];
        var found, ferr := FindAndMoveBinary(fs, tempDir, storePath, binaryNames[i]);
        if ferr.Some? {
          err := Some(FsErr(ferr.value));
        } else if !found {
          err := Some(BinaryNotFound(binaryNames[i]));
        }
        i := i + 1;
      }
    }

    method ExtractTarGz(fs: FileSystem, downloadPath: Path, destDir: Path) returns (err: Option<StoreError>)
      modifies fs
      ensures Progress(fs.tree, err) == Extract(old(fs.tree), downloadPath, destDir)
    {
      var lookup := Stat(fs.tree, downloadPath);
      if lookup.Missing? {
        return Some(FsErr(lookup.err));
      } else if lookup.TooManyLinks? {
        return Some(FsErr(ELOOP));
      }
      var file := lookup.node;
      if !(file.File? && file.content.TarGz?) {
        return Some(GzipErr);
      }
      var entries := file.content.entries;
      var i := 0;
      while i < |entries|
        invariant 0 <= i <= |entries|
        invariant ExtractEntries(fs.tree, destDir, entries[i..]) == ExtractEntries(old(fs.tree), destDir, entries)
        decreases |entries| - i
      {
        assert entries[i..][1..] == entries[i + 1..];
        var e := ExtractHeader(fs, destDir, entries[i]);
        if e.Some? {
          return Some(FsErr(e.value));
        }
        i := i + 1;
      }
      if file.content.tail == Corrupt {
        return Some(TarErr);
      }
      return None;
    }

    /** The body of the header loop of extractTarGz. */
    method ExtractHeader(fs: FileSystem, destDir: Path, header: TarEntry) returns (err: Option<FsError>)
      modifies fs
      ensures Outcome(fs.tree, err) == ExtractEntry(old(fs.tree), destDir, header)
    {
      var target := JoinPath(destDir, header.name);
      match header.kind {
        case TypeDir =>
          err := fs.MkdirAll(target);
        case TypeReg(body, mode) =>
          if target == [] {
            return Some(EISDIR);
          }
          err := fs.MkdirAll(Parent(target));
          if err.None? {
            err := fs.WriteFile(target, body, mode);
          }
        case TypeOther(_) =>
          err := None;
      }
    }

    method FindAndMoveBinary(fs: FileSystem, tempDir: Path, storePath: Path, binaryName: string)
      returns (found: bool, err: Option<FsError>)
      modifies fs
      ensures Moved(fs.tree, found, err) == FindAndMove(old(fs.tree), tempDir, storePath, binaryName)
    {
      if tempDir != [] && tempDir !in fs.tree {
        return false, Some(MissingErr(fs.tree, tempDir));
      }
      // The walk: keep the earliest match in walk order.
      var matches := WalkMatches(fs.tree, tempDir, binaryName);
      var rest := matches;
      var foundPath: Option<Path> := None;
      while rest != {}
        invariant fs.tree == old(fs.tree)
        invariant rest <= matches
        invariant foundPath.None? ==> rest == matches
        invariant foundPath.Some? ==> foundPath.value in matches && foundPath.value !in rest
        invariant foundPath.Some? ==> forall q | q in matches && q !in rest :: q == foundPath.value || PathLt(foundPath.value, q)
        decreases |rest|
      {
        var q :| q in rest;
        if foundPath.None? {
          foundPath := Some(q);
        } else {
          PathLtTotal(q, foundPath.value);
          if PathLt(q, foundPath.value) {
            forall x | x in matches && x !in rest - {q} ensures x == q || PathLt(q, x) {
              if x != q && x != foundPath.value {
                PathLtTransitive(q, foundPath.value, x);
              }
            }
            foundPath := Some(q);
          }
        }
        rest := rest - {q};
      }
      if foundPath.None? {
        assert FirstMatch(fs.tree, tempDir, binaryName).None?;
        return false, None;
      }
      var path := foundPath.value;
      assert IsFirst(path, matches);
      FirstUnique(path, FirstMatch(fs.tree, tempDir, binaryName).value, matches);
      var destPath := storePath + [binaryName];
      err := fs.Rename(path, destPath);
      if err.Some? {
        err := fs.CopyFile(path, destPath);
        if err.Some? {
          return false, err;
        }
      }
      err := fs.Chmod(destPath, Mode0755);
      if err.Some? {
        return false, err;
      }
      return true, None;
    }
  }
}

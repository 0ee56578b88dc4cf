/**
 * What Store.Install promises: where it installs, when it does nothing,
 * which route it takes, what ends up in the store, and what becomes of
 * the scratch directory.
 */
module StoreLemmas {
  import opened Wrappers
  import opened Strings
  import opened Paths
  import opened Os
  import opened Store

  /** `storePath/b` is an executable regular file. */
  predicate Placed(t: Tree, storePath: Path, b: string) {
    storePath + [b] in t && t[storePath + [b]].File? && t[storePath + [b]].mode == Mode0755
  }

  /** Every proper ancestor of `p` is a directory. */
  predicate AncestorsAreDirs(t: Tree, p: Path) {
    forall k | 0 < k < |p| :: p[..k] in t && t[p[..k]] == Dir
  }

  predicate NoLinksUnder(t: Tree, dir: Path) {
    forall q | q in t && IsPrefix(dir, q) :: !t[q].Link?
  }

  /** The scratch directory as installTarGz creates it: a directory, reached through directories, holding no links. */
  predicate Scratch(t: Tree, tmp: Path) {
    Valid(t) && tmp in t && t[tmp] == Dir && AncestorsAreDirs(t, tmp) && NoLinksUnder(t, tmp)
  }

  /** `b` only adds entries strictly below `tmp` and changes nothing outside it. */
  predicate GrowsBelow(a: Tree, b: Tree, tmp: Path) {
    Scratch(b, tmp)
    && (forall q | q in a :: q in b)
    && (forall q | q in b && q !in a :: IsStrictPrefix(tmp, q))
    && (forall q | q in a && !IsPrefix(tmp, q) :: b[q] == a[q])
  }

  /** Nothing is at or below the store path. */
  predicate Fresh(t: Tree, storePath: Path) {
    storePath !in t && forall q | q in t :: !IsStrictPrefix(storePath, q)
  }

  /** The state the binary-moving loop keeps. */
  predicate MoveInv(t: Tree, tmp: Path, storePath: Path) {
    tmp in t && t[tmp] == Dir && NoLinksUnder(t, tmp)
    && storePath in t && t[storePath] == Dir && |storePath| == |tmp| && storePath != tmp
    && forall q | q in t && IsStrictPrefix(storePath, q) :: |q| == |storePath| + 1 && t[q].File?
  }

  /** The route: ".tar.gz" or ".tgz" at the end of the download path means an archive. */
  lemma ArchiveRoute(download: Path)
    ensures IsArchive(download) <==>
      var base := if |download| == 0 then "" else Last(download);
      HasSuffix(base, ".tar.gz") || HasSuffix(base, ".tgz")
  {
    var base := if |download| == 0 then "" else Last(download);
    ExtIsTgzIff(base);
  }

  /**
   * A single-binary install of a readable download leaves exactly one new
   * file, `storePath/name`, holding the download's content with mode 0755,
   * besides the directories MkdirAll creates; it fails only when MkdirAll does.
   */
  lemma InstallBinaryCopies(t: Tree, name: string, download: Path, storePath: Path, c: Content)
    requires Valid(t) && |storePath| > 0 && !Stat(t, storePath).Found?
    requires ReadContent(t, download) == Ok(c)
    ensures var r := InstallBinaryOutcome(t, name, download, storePath);
      (r.result.Ok? <==> MkdirAll(t, storePath).Ok?)
      && (r.result.Ok? ==> r.result.value == storePath
                           && r.tree == MkdirAll(t, storePath).value[storePath + [name] := File(c, Mode0755)])
  {
    if MkdirAll(t, storePath).Ok? {
      var t1 := MkdirAll(t, storePath).value;
      MkdirLeavesRoom(t, name, download, storePath, c);
      CopyThenChmod(t1, download, storePath + [name], c);
    }
  }

  /** After MkdirAll of a path nothing resolved at, the directory is empty and the download still reads the same. */
  lemma MkdirLeavesRoom(t: Tree, name: string, download: Path, storePath: Path, c: Content)
    requires Valid(t) && |storePath| > 0 && !Stat(t, storePath).Found?
    requires ReadContent(t, download) == Ok(c) && MkdirAll(t, storePath).Ok?
    ensures var t1 := MkdirAll(t, storePath).value;
      storePath + [name] !in t1 && ParentIsDir(t1, storePath + [name]) && ReadContent(t1, download) == Ok(c)
  {
    var t1 := MkdirAll(t, storePath).value;
    var dst := storePath + [name];
    assert Parent(dst) == storePath;
    assert storePath !in t && storePath in t1 && t1[storePath] == Dir;
    assert dst in t ==> ParentIsDir(t, dst);
    assert dst in t1 ==> dst in t || IsPrefix(dst, storePath);
    ResolveExtends(t, t1, download, MaxSymlinkHops);
  }

  /** Copying a readable file to a fresh entry and making it executable leaves the content with mode 0755. */
  lemma CopyThenChmod(t1: Tree, download: Path, dst: Path, c: Content)
    requires dst !in t1 && ParentIsDir(t1, dst) && ReadContent(t1, download) == Ok(c)
    ensures CopyFile(t1, download, dst).err.None?
    ensures Chmod(CopyFile(t1, download, dst).tree, dst, Mode0755) == Ok(t1[dst := File(c, Mode0755)])
  {
    CopyFileFresh(t1, download, dst, c);
    var t2 := t1[dst := File(c, Mode0666)];
    assert Stat(t2, dst) == Found(dst, File(c, Mode0666));
    assert t2[dst := File(c, Mode0755)] == t1[dst := File(c, Mode0755)];
  }

  /** Only directory and regular-file headers. */
  function Materialised(es: seq<TarEntry>): (r: seq<TarEntry>)
    ensures |r| <= |es|
    ensures forall e | e in r :: e in es && !e.kind.TypeOther?
    ensures forall e | e in es && !e.kind.TypeOther? :: e in r
  {
    if es == [] then []
    else if es[0].kind.TypeOther? then Materialised(es[1..])
    else [es[0]] + Materialised(es[1..])
  }

  /** Extraction behaves as if every header other than a directory or regular file were absent. */
  lemma {:induction false} ExtractSkipsOthers(t: Tree, dest: Path, es: seq<TarEntry>)
    ensures ExtractEntries(t, dest, es) == ExtractEntries(t, dest, Materialised(es))
    decreases |es|
  {
    if es != [] {
      var o := ExtractEntry(t, dest, es[0]);
      if es[0].kind.TypeOther? {
        ExtractSkipsOthers(t, dest, es[1..]);
      } else {
        var m := [es[0]] + Materialised(es[1..]);
        assert m[0] == es[0] && m[1..] == Materialised(es[1..]);
        if o.err.None? {
          ExtractSkipsOthers(o.tree, dest, es[1..]);
        }
      }
    }
  }

  /** MkdirAll of a path below the scratch directory only adds directories below it. */
  lemma MkdirAllInScratch(t: Tree, tmp: Path, p: Path)
    requires Scratch(t, tmp) && IsPrefix(tmp, p)
    ensures MkdirAll(t, p).Ok? ==> GrowsBelow(t, MkdirAll(t, p).value, tmp)
  {
    if MkdirAll(t, p).Ok? {
      var t1 := MkdirAll(t, p).value;
      forall q | q in t1 && q !in t ensures IsStrictPrefix(tmp, q) {
        PrefixesComparable(q, tmp, p);
        assert [] !in t1;
      }
    }
  }

  /** Writing a file strictly below the scratch directory. */
  lemma WriteInScratch(t: Tree, tmp: Path, target: Path, body: Content, mode: nat)
    requires Scratch(t, tmp) && IsStrictPrefix(tmp, target)
    ensures WriteFile(t, target, body, mode).Ok? ==> GrowsBelow(t, WriteFile(t, target, body, mode).value, tmp)
  {
    if WriteFile(t, target, body, mode).Ok? {
      var t2 := WriteFile(t, target, body, mode).value;
      if target in t {
        assert !t[target].Link?;
        assert Stat(t, target) == Found(target, t[target]);
      } else {
        assert Stat(t, target).path == target;
      }
      assert t2.Keys == t.Keys + {target} && t2[target].File?;
      assert forall q | q in t && q != target :: t2[q] == t[q];
      assert forall k | 0 < k < |tmp| :: tmp[..k] != target;
    }
  }

  /** One tar header whose target stays within the scratch directory changes nothing outside it. */
  lemma ExtractEntryInScratch(t: Tree, tmp: Path, e: TarEntry)
    requires Scratch(t, tmp) && Stays(tmp, e)
    ensures GrowsBelow(t, ExtractEntry(t, tmp, e).tree, tmp)
  {
    var target := JoinPath(tmp, e.name);
    match e.kind
    case TypeDir =>
      MkdirAllInScratch(t, tmp, target);
    case TypeReg(body, mode) =>
      if target != [] {
        if target == tmp {
          if |tmp| > 1 {
            assert Parent(tmp) == tmp[..|tmp| - 1];
            assert Stat(t, Parent(tmp)) == Found(Parent(tmp), Dir);
          }
          assert MkdirAll(t, Parent(target)) == Ok(t);
        } else {
          assert IsPrefix(tmp, Parent(target)) by {
            assert Parent(target)[..|tmp|] == tmp;
          }
          MkdirAllInScratch(t, tmp, Parent(target));
          if MkdirAll(t, Parent(target)).Ok? {
            WriteInScratch(MkdirAll(t, Parent(target)).value, tmp, target, body, mode);
          }
        }
      }
    case TypeOther(_) =>
  }

  lemma {:induction false} ExtractEntriesInScratch(t: Tree, tmp: Path, es: seq<TarEntry>)
    requires Scratch(t, tmp) && forall e | e in es :: Stays(tmp, e)
    ensures GrowsBelow(t, ExtractEntries(t, tmp, es).tree, tmp)
    decreases |es|
  {
    if es != [] {
      var o := ExtractEntry(t, tmp, es[0]);
      ExtractEntryInScratch(t, tmp, es[0]);
      if o.err.None? {
        ExtractEntriesInScratch(o.tree, tmp, es[1..]);
      }
    }
  }

  /** Every archive in the tree holds only headers whose targets stay within `dest`. */
  predicate ArchivesStay(t: Tree, dest: Path) {
    forall p | p in t && t[p].File? && t[p].content.TarGz? ::
      forall e | e in t[p].content.entries :: Stays(dest, e)
  }

  /** Extraction of an archive whose headers stay within the scratch directory changes nothing outside it. */
  lemma ExtractInScratch(t: Tree, download: Path, tmp: Path)
    requires Scratch(t, tmp) && ArchivesStay(t, tmp)
    ensures GrowsBelow(t, Extract(t, download, tmp).tree, tmp)
  {
    match Stat(t, download)
    case Found(_, n) =>
      if n.File? && n.content.TarGz? {
        ExtractEntriesInScratch(t, tmp, n.content.entries);
      }
    case _ =>
  }

  /**
   * The header loop with the intended guard keeps every archive within
   * the scratch directory, whatever its header names.
   */
  lemma {:induction false} ConfinedExtractionInScratch(t: Tree, tmp: Path, es: seq<TarEntry>)
    requires Scratch(t, tmp)
    ensures GrowsBelow(t, ExtractEntriesConfined(t, tmp, es).tree, tmp)
    decreases |es|
  {
    if es != [] {
      var o := ExtractEntryConfined(t, tmp, es[0]);
      if Stays(tmp, es[0]) {
        ExtractEntryInScratch(t, tmp, es[0]);
      }
      if o.err.None? {
        ConfinedExtractionInScratch(o.tree, tmp, es[1..]);
      }
    }
  }

  /** On headers that stay within `dest` the guard never fires: the guarded loop is the loop as written. */
  lemma {:induction false} ConfinedAgrees(t: Tree, dest: Path, es: seq<TarEntry>)
    requires forall e | e in es :: Stays(dest, e)
    ensures ExtractEntriesConfined(t, dest, es) == ExtractEntries(t, dest, es)
    decreases |es|
  {
    if es != [] {
      var o := ExtractEntry(t, dest, es[0]);
      if o.err.None? {
        ConfinedAgrees(o.tree, dest, es[1..]);
      }
    }
  }

  /**
   * A regular-file header "../../evil" extracted into the scratch
   * directory /home/s/p-1.tmp is written to /home/evil, and removing the
   * scratch directory afterwards leaves it in place; the guarded version
   * refuses the header.
   */
  lemma ExtractEscapes()
    ensures var dest := ["home", "s", "p-1.tmp"];
      var t := map[["home"] := Dir, ["home", "s"] := Dir, dest := Dir];
      var e := TarEntry(["..", "..", "evil"], TypeReg(Raw([]), Mode0755));
      var o := ExtractEntry(t, dest, e);
      o.err.None? && ["home", "evil"] in o.tree && !IsPrefix(dest, ["home", "evil"])
      && RemoveAll(o.tree, dest).Ok? && ["home", "evil"] in RemoveAll(o.tree, dest).value
      && ExtractEntryConfined(t, dest, e) == Outcome(t, Some(EINVAL))
  {
    var dest := ["home", "s", "p-1.tmp"];
    var t := map[["home"] := Dir, ["home", "s"] := Dir, dest := Dir];
    var e := TarEntry(["..", "..", "evil"], TypeReg(Raw([]), Mode0755));
    var target := ["home", "evil"];
    assert JoinPath(dest, e.name) == target by {
      assert Step(dest, "..") == ["home", "s"];
      assert Step(["home", "s"], "..") == ["home"];
      assert e.name[1..][1..][1..] == [];
    }
    assert Stat(t, ["home"]) == Found(["home"], Dir);
    assert Parent(target) == ["home"];
    assert Stat(t, target) == Missing(target, ENOENT) by {
      assert !Blocked(t, target);
    }
    assert !IsPrefix(dest, target);
  }

  /**
   * findAndMoveBinary over the loop's state: it never fails; it finds
   * nothing exactly when no non-directory below the scratch directory is
   * named `b`; otherwise the first such entry in walk order becomes
   * `storePath/b` with mode 0755 and nothing else changes.
   */
  lemma FindAndMoveFirstMatch(t: Tree, tmp: Path, storePath: Path, b: string)
    requires MoveInv(t, tmp, storePath)
    ensures var m := FindAndMove(t, tmp, storePath, b);
      m.err.None?
      && (!m.found <==> WalkMatches(t, tmp, b) == {})
      && (!m.found ==> m.tree == t)
      && (m.found ==>
            var src := FirstMatch(t, tmp, b).value;
            IsFirst(src, WalkMatches(t, tmp, b)) && t[src].File?
            && m.tree == (t - {src})[storePath + [b] := File(t[src].content, Mode0755)])
      && MoveInv(m.tree, tmp, storePath)
  {
    if FirstMatch(t, tmp, b).Some? {
      var src := FirstMatch(t, tmp, b).value;
      var dst := storePath + [b];
      assert WalkMatch(t, tmp, b, src);
      assert t[src].File?;
      assert dst[..|storePath|] == storePath && Parent(dst) == storePath;
      assert src != dst by {
        assert src[..|tmp|] == tmp;
      }
      assert dst in t ==> !t[dst].Dir? by {
        if dst in t {
          assert IsStrictPrefix(storePath, dst);
        }
      }
      var t1 := (t - {src})[dst := t[src]];
      assert RenameNonDir(t, src, dst) == Ok(t1);
      assert Stat(t1, dst) == Found(dst, t[src]);
      var t2 := t1[dst := File(t[src].content, Mode0755)];
      assert t2 == (t - {src})[dst := File(t[src].content, Mode0755)];
      assert FindAndMove(t, tmp, storePath, b) == Moved(t2, true, None);
      assert tmp != dst && storePath != src;
      assert !IsPrefix(tmp, dst) by {
        assert dst[..|tmp|] == storePath;
      }
    }
  }

  /** Once an install step has failed, later binary names are not looked at. */
  lemma {:induction false} MoveAllStops(t: Tree, tmp: Path, storePath: Path, names: seq<string>, more: seq<string>)
    requires MoveAll(t, tmp, storePath, names).err.Some?
    ensures MoveAll(t, tmp, storePath, names + more) == MoveAll(t, tmp, storePath, names)
    decreases |names|
  {
    assert (names + more)[0] == names[0];
    var m := FindAndMove(t, tmp, storePath, names[0]);
    if m.err.None? && m.found {
      assert (names + more)[1..] == names[1..] + more;
      MoveAllStops(m.tree, tmp, storePath, names[1..], more);
    }
  }

  /**
   * The binary-moving loop never fails with a filesystem error; what was
   * placed stays placed; on success every requested name is placed; on
   * failure it names a requested binary that was not found.
   */
  lemma {:induction false} MoveAllPlaces(t: Tree, tmp: Path, storePath: Path, names: seq<string>)
    requires MoveInv(t, tmp, storePath)
    ensures var m := MoveAll(t, tmp, storePath, names);
      MoveInv(m.tree, tmp, storePath)
      && (forall x | Placed(t, storePath, x) :: Placed(m.tree, storePath, x))
      && (m.err.None? ==> forall b | b in names :: Placed(m.tree, storePath, b))
      && (m.err.Some? ==> m.err.value.BinaryNotFound? && m.err.value.name in names)
    decreases |names|
  {
    if names != [] {
      var m := FindAndMove(t, tmp, storePath, names[0]);
      FindAndMoveFirstMatch(t, tmp, storePath, names[0]);
      if m.found {
        var src := FirstMatch(t, tmp, names[0]).value;
        assert src[..|tmp|] == tmp;
        forall x | Placed(t, storePath, x) ensures Placed(m.tree, storePath, x) {
          assert (storePath + [x])[..|tmp|] != tmp;
        }
        assert Placed(m.tree, storePath, names[0]);
        MoveAllPlaces(m.tree, tmp, storePath, names[1..]);
        var r := MoveAll(m.tree, tmp, storePath, names[1..]);
        forall b | b in names && r.err.None? ensures Placed(r.tree, storePath, b) {
          if b != names[0] {
            assert b in names[1..];
          }
        }
      }
    }
  }

  /** The scratch directory after RemoveAll and MkdirAll. */
  lemma FreshScratch(t: Tree, tmp: Path)
    requires Valid(t) && |tmp| > 0
    requires RemoveAll(t, tmp).Ok? && MkdirAll(RemoveAll(t, tmp).value, tmp).Ok?
    ensures var t2 := MkdirAll(RemoveAll(t, tmp).value, tmp).value;
      Scratch(t2, tmp) && forall q | q in t2 && IsPrefix(tmp, q) :: q == tmp
  {
    var t1 := RemoveAll(t, tmp).value;
    var t2 := MkdirAll(t1, tmp).value;
    assert tmp !in t1;
    assert tmp in t2 && t2[tmp] == Dir;
    forall k | 0 < k < |tmp| ensures tmp[..k] in t2 && t2[tmp[..k]] == Dir {
      AncestorIsDir(t2, tmp, k);
    }
    forall q | q in t2 && IsPrefix(tmp, q) ensures q == tmp {
      if q !in t1 {
        assert IsPrefix(q, tmp);
      }
    }
  }

  /** In a valid tree, an entry's ancestors are directories. */
  lemma {:induction false} AncestorIsDir(t: Tree, p: Path, k: nat)
    requires Valid(t) && p in t && 0 < k < |p|
    ensures p[..k] in t && t[p[..k]] == Dir
    decreases |p|
  {
    assert ParentIsDir(t, p);
    if k == |p| - 1 {
      assert p[..k] == Parent(p);
    } else {
      assert Parent(p)[..k] == p[..k];
      AncestorIsDir(t, Parent(p), k);
    }
  }

  /** In a valid tree, nothing lies below an absent path. */
  lemma AbsentIsFresh(t: Tree, p: Path)
    requires Valid(t) && p !in t && |p| > 0
    ensures Fresh(t, p)
  {
    forall q | q in t ensures !IsStrictPrefix(p, q) {
      if IsStrictPrefix(p, q) && |p| > 0 {
        AncestorIsDir(t, q, |p|);
      }
    }
  }

  /** What an archive install promises once the scratch directory exists. */
  predicate ArchiveDone(r: Installed, tmp: Path, storePath: Path, names: seq<string>) {
    (r.result.Ok? ==> forall b | b in names :: Placed(r.tree, storePath, b))
    && (r.result.Err? && r.result.error.BinaryNotFound? ==>
          storePath in r.tree && r.tree[storePath] == Dir && r.result.error.name in names)
    && (forall q | q in r.tree :: !IsPrefix(tmp, q))
  }

  lemma MoveIntoStoreResult(t: Tree, tmp: Path, storePath: Path, names: seq<string>)
    requires tmp in t && t[tmp] == Dir && NoLinksUnder(t, tmp) && Valid(t)
    requires Fresh(t, storePath) && |storePath| == |tmp| > 0 && storePath != tmp
    ensures ArchiveDone(MoveIntoStore(t, tmp, storePath, names), tmp, storePath, names)
  {
    if MkdirAll(t, storePath).Ok? {
      assert Stat(t, storePath) == Missing(storePath, MissingErr(t, storePath));
      var t3 := MkdirAll(t, storePath).value;
      assert MoveInv(t3, tmp, storePath) by {
        assert forall q | q in t3 && q !in t :: IsPrefix(q, storePath);
        assert forall q | q in t3 && IsPrefix(q, storePath) :: !IsStrictPrefix(storePath, q);
        assert forall q | IsPrefix(q, storePath) :: |q| < |tmp| || q[..|tmp|] != tmp;
      }
      MoveAllPlaces(t3, tmp, storePath, names);
      var m := MoveAll(t3, tmp, storePath, names);
      forall b | Placed(m.tree, storePath, b) ensures Placed(RemoveAll(m.tree, tmp).value, storePath, b) {
        assert (storePath + [b])[..|tmp|] != tmp;
      }
    } else {
      assert RemoveAll(t, tmp).Ok?;
    }
  }

  lemma ExtractAndMoveResult(t: Tree, download: Path, tmp: Path, storePath: Path, names: seq<string>)
    requires Scratch(t, tmp) && ArchivesStay(t, tmp) && Fresh(t, storePath) && |storePath| == |tmp| > 0 && storePath != tmp
    ensures ArchiveDone(ExtractAndMove(t, download, tmp, storePath, names), tmp, storePath, names)
  {
    var x := Extract(t, download, tmp);
    ExtractInScratch(t, download, tmp);
    assert Fresh(x.tree, storePath) by {
      assert forall q | q in x.tree && q !in t :: q[..|tmp|] == tmp;
    }
    if x.err.None? {
      MoveIntoStoreResult(x.tree, tmp, storePath, names);
    } else {
      assert RemoveAll(x.tree, tmp).Ok?;
    }
  }

  /**
   * An archive install from a tree with nothing at the store path: on
   * success every requested binary is an executable file in the store
   * directory; a missing binary leaves the store directory in place; and
   * once the scratch directory was made, nothing below it survives.
   */
  lemma ArchiveInstall(t: Tree, root: Path, name: string, version: string, download: Path, names: seq<string>)
    requires Valid(t) && IsArchive(download)
    requires StorePath(root, name, version) !in t
    requires ArchivesStay(t, TempDir(StorePath(root, name, version)))
    ensures var sp := StorePath(root, name, version);
      var tmp := TempDir(sp);
      var r := InstallOutcome(t, root, name, version, download, names);
      (r.result.Ok? ==> forall b | b in names :: Placed(r.tree, sp, b))
      && (r.result.Err? && r.result.error.BinaryNotFound? ==> sp in r.tree && r.tree[sp] == Dir && r.result.error.name in names)
      && (RemoveAll(t, tmp).Ok? && MkdirAll(RemoveAll(t, tmp).value, tmp).Ok? ==> forall q | q in r.tree :: !IsPrefix(tmp, q))
  {
    var sp := StorePath(root, name, version);
    var tmp := TempDir(sp);
    assert Stat(t, sp) == Missing(sp, MissingErr(t, sp));
    AbsentIsFresh(t, sp);
    if RemoveAll(t, tmp).Ok? && MkdirAll(RemoveAll(t, tmp).value, tmp).Ok? {
      var t1 := RemoveAll(t, tmp).value;
      var t2 := MkdirAll(t1, tmp).value;
      FreshScratch(t, tmp);
      assert ArchivesStay(t2, tmp) by {
        assert forall q | q in t2 && !t2[q].Dir? :: q in t1 && t2[q] == t1[q] && q in t && t1[q] == t[q];
      }
      assert Fresh(t2, sp) by {
        assert forall q | q in t2 && q !in t :: IsPrefix(q, tmp);
        assert forall q | IsPrefix(q, tmp) :: q != sp && !IsStrictPrefix(sp, q);
      }
      ExtractAndMoveResult(t2, download, tmp, sp, names);
    }
  }

  /** After a missing binary, installing again takes the fast path and changes nothing. */
  lemma RetryTakesFastPath(t: Tree, root: Path, name: string, version: string, download: Path, names: seq<string>)
    requires Valid(t) && IsArchive(download)
    requires StorePath(root, name, version) !in t
    requires InstallOutcome(t, root, name, version, download, names).result.Err?
    requires InstallOutcome(t, root, name, version, download, names).result.error.BinaryNotFound?
    requires ArchivesStay(t, TempDir(StorePath(root, name, version)))
    ensures var r := InstallOutcome(t, root, name, version, download, names);
      InstallOutcome(r.tree, root, name, version, download, names) == Installed(r.tree, Ok(StorePath(root, name, version)))
  {
    ArchiveInstall(t, root, name, version, download, names);
  }
}

/**
 * The prune commands of pkg/cmd/cmd.go: `prune containers`, which lists
 * the managed containers by name, removes those the configuration does
 * not keep and sweeps the profile's orphaned links, and `prune images`.
 * Its own sweep is written with a jump out of the inner loop; it is
 * proved to agree with the sweep of the symlink manager.
 */
module CmdPrune {
  import opened Wrappers
  import opened Strings
  import opened Paths
  import opened Os
  import opened Disk
  import opened Engine
  import DockerClient
  import Config
  import Prune
  import Symlinks

  /** `docker ps -a --filter name=yourpm- --format {{.Names}}`. */
  const ListNames: Cmd := ["ps", "-a", "--filter", "name=yourpm-", "--format", NamesFormat]

  /** The scan of the arguments for `--all`, stopping at the first one. */
  method AllFlag(args: seq<string>) returns (aggressive: bool)
    ensures aggressive <==> "--all" in args
  {
    aggressive := false;
    var i := 0;
    while i < |args|
      invariant 0 <= i <= |args|
      invariant !aggressive && "--all" !in args[..i]
    {
      assert args[..i + 1] == args[..i] + [args[i]];
      if args[i] == "--all" {
        aggressive := true;
        break;
      }
      i := i + 1;
    }
    assert aggressive || args[..i] == args;
  }

  // ----- the removal loop -----

  /** Whether the loop removes the container on listing line `line`: a non-blank name that the configuration does not keep. */
  predicate Doomed(line: string, aggressive: bool, active: set<string>) {
    var name := TrimSpace(line);
    name != "" && (aggressive || name !in active)
  }

  /** The trimmed names of the doomed lines, in listing order. */
  function DoomedNames(lines: seq<string>, aggressive: bool, active: set<string>): (r: seq<string>)
    ensures |r| <= |lines|
    decreases |lines|
  {
    if lines == [] then []
    else
      var init := lines[..|lines| - 1];
      var last := lines[|lines| - 1];
      var prev := DoomedNames(init, aggressive, active);
      if Doomed(last, aggressive, active) then prev + [TrimSpace(last)] else prev
  }

  /** The trimmed listing lines. */
  function Trims(lines: seq<string>): (r: seq<string>)
    ensures |r| == |lines|
    decreases |lines|
  {
    if lines == [] then [] else Trims(lines[..|lines| - 1]) + [TrimSpace(lines[|lines| - 1])]
  }

  /** Clean lines are their own Trims. */
  lemma {:induction false} TrimsOfClean(lines: seq<string>)
    requires forall i | 0 <= i < |lines| :: CleanName(lines[i])
    ensures Trims(lines) == lines
    decreases |lines|
  {
    if lines != [] {
      var init, last := lines[..|lines| - 1], lines[|lines| - 1];
      forall i | 0 <= i < |init| ensures CleanName(init[i]) {
        assert init[i] == lines[i];
      }
      TrimsOfClean(init);
      TrimSpaceOfTrimmed(last);
      assert init + [last] == lines;
    }
  }

  /** A name is doomed exactly when it is not blank, not kept, and the trim of some listed line. */
  lemma {:induction false} DoomedNamesMembers(lines: seq<string>, aggressive: bool, active: set<string>, n: string)
    ensures n in DoomedNames(lines, aggressive, active) <==> n != "" && (aggressive || n !in active) && n in Trims(lines)
    decreases |lines|
  {
    if lines != [] {
      DoomedNamesMembers(lines[..|lines| - 1], aggressive, active, n);
    }
  }

  /** One turn of the loop: the line's trimmed name is removed when it is doomed. */
  function LineStep(s: State, line: string, aggressive: bool, active: set<string>): Effect {
    if Doomed(line, aggressive, active) then
      var rm := Prune.RemoveCmd(TrimSpace(line));
      Effect(Interpret(s, rm).state, [rm], true)
    else Effect(s, [], true)
  }

  /** The loop of pruneContainers (and, aggressive with no active set, of pruneAllYourpmContainers) over the listed lines. */
  function RemoveDoomed(s: State, lines: seq<string>, aggressive: bool, active: set<string>): Effect
    decreases |lines|
  {
    if lines == [] then Effect(s, [], true)
    else
      var prev := RemoveDoomed(s, lines[..|lines| - 1], aggressive, active);
      var step := LineStep(prev.state, lines[|lines| - 1], aggressive, active);
      Effect(step.state, prev.calls + step.calls, true)
  }

  /**
   * pruneContainers on the runtime: a failed listing is the only error; a
   * blank listing removes nothing; otherwise the lines of the trimmed
   * output go through the loop.
   */
  function PrunedContainers(s: State, aggressive: bool, active: set<string>): Effect {
    var q := Interpret(s, ListNames);
    if !q.ok then Effect(s, [ListNames], false)
    else if TrimSpace(q.out) == "" then Effect(s, [ListNames], true)
    else
      var e := RemoveDoomed(s, Split(TrimSpace(q.out), '\n'), aggressive, active);
      Effect(e.state, [ListNames] + e.calls, true)
  }

  lemma RemoveDoomedStep(s: State, lines: seq<string>, i: nat, aggressive: bool, active: set<string>)
    requires i < |lines|
    ensures var prev := RemoveDoomed(s, lines[..i], aggressive, active);
      var step := LineStep(prev.state, lines[i], aggressive, active);
      RemoveDoomed(s, lines[..i + 1], aggressive, active) == Effect(step.state, prev.calls + step.calls, true)
  {
    assert lines[..i + 1][..i] == lines[..i];
  }

  /** The loop issues one `rm -f` per doomed name, in listing order, and nothing else. */
  lemma {:induction false} RemoveDoomedCalls(s: State, lines: seq<string>, aggressive: bool, active: set<string>)
    ensures var e := RemoveDoomed(s, lines, aggressive, active);
      var names := DoomedNames(lines, aggressive, active);
      e.ok && |e.calls| == |names| && forall i | 0 <= i < |names| :: e.calls[i] == Prune.RemoveCmd(names[i])
    decreases |lines|
  {
    if lines != [] {
      RemoveDoomedCalls(s, lines[..|lines| - 1], aggressive, active);
    }
  }

  /** On a running daemon the loop takes away exactly the containers named by a doomed line, and nothing else changes. */
  lemma {:induction false} RemoveDoomedState(s: State, lines: seq<string>, aggressive: bool, active: set<string>)
    requires !s.down
    ensures var e := RemoveDoomed(s, lines, aggressive, active);
      e.state == s.(containers := e.state.containers)
      && forall c :: c in e.state.containers <==> c in s.containers && c.name !in DoomedNames(lines, aggressive, active)
    decreases |lines|
  {
    if lines != [] {
      var init, last := lines[..|lines| - 1], lines[|lines| - 1];
      RemoveDoomedState(s, init, aggressive, active);
      if Doomed(last, aggressive, active) {
        var prev := RemoveDoomed(s, init, aggressive, active);
        RmEffect(prev.state, TrimSpace(last));
        assert DoomedNames(lines, aggressive, active) == DoomedNames(init, aggressive, active) + [TrimSpace(last)];
      }
    }
  }

  // ----- the listing -----

  /** A name `docker ps` prints as it is: not empty and without white space. */
  predicate CleanName(n: string) {
    n != "" && forall i | 0 <= i < |n| :: !IsSpace(n[i])
  }

  /** The first and last characters of a join are those of its first and last parts. */
  lemma JoinEnds(parts: seq<string>, sep: string)
    requires |parts| >= 1 && parts[0] != "" && parts[|parts| - 1] != ""
    ensures var j := Join(parts, sep);
      |j| > 0 && j[0] == parts[0][0] && j[|j| - 1] == parts[|parts| - 1][|parts[|parts| - 1]| - 1]
  {
    var last := parts[|parts| - 1];
    if |parts| > 1 {
      var init := parts[..|parts| - 1];
      assert init + [last] == parts;
      JoinAppend(init, last, sep);
      assert Join(parts, sep) == parts[0] + sep + Join(parts[1..], sep);
    }
  }

  lemma NoNewline(n: string)
    requires CleanName(n)
    ensures '\n' !in n
  {
    assert IsSpace('\n');
  }

  /** Trimmed and split at newlines, a listing of clean names gives the names back. */
  lemma ListingRoundTrip(names: seq<string>)
    requires names != [] && forall i | 0 <= i < |names| :: CleanName(names[i])
    ensures TrimSpace(Listing(names)) != "" && Split(TrimSpace(Listing(names)), '\n') == names
  {
    ListingTrimmed(names);
    forall i | 0 <= i < |names| ensures '\n' !in names[i] {
      NoNewline(names[i]);
    }
    SplitJoin(names, '\n');
  }

  /** Trimmed, a listing of clean names loses only its final line break. */
  lemma ListingTrimmed(names: seq<string>)
    requires names != [] && forall i | 0 <= i < |names| :: CleanName(names[i])
    ensures TrimSpace(Listing(names)) == Join(names, "\n") != ""
  {
    ListingJoin(names);
    JoinAppend(names, "", "\n");
    var x := Join(names, "\n");
    assert Listing(names) == x + "\n";
    JoinEnds(names, "\n");
    DockerClient.TrimSpaceNewline(x);
  }

  /** The names listing answer: the managed containers' names, newest first. */
  lemma ListNamesAnswer(s: State)
    requires !s.down
    ensures Interpret(s, ListNames) == Response(s, true, Listing(Names(Matching(s.containers, "yourpm-"))))
  {
    assert ListNames[..3] == ["ps", "-a", "--filter"] && ListNames[3][5..] == "yourpm-";
    assert ParsePs(ListNames) == Some(PsQuery(true, Some("yourpm-"), NamesFormat));
  }

  /** The managed names the listing shows are clean and their own trim. */
  lemma ManagedNamesClean(s: State)
    requires forall c | c in s.containers :: CleanName(c.name)
    ensures var names := Names(Matching(s.containers, "yourpm-"));
      forall i | 0 <= i < |names| :: CleanName(names[i]) && TrimSpace(names[i]) == names[i]
  {
    var managed := Matching(s.containers, "yourpm-");
    var names := Names(managed);
    forall i | 0 <= i < |names| ensures CleanName(names[i]) && TrimSpace(names[i]) == names[i] {
      assert managed[i] in managed;
      TrimSpaceOfTrimmed(names[i]);
    }
  }

  /** Read from a listing of clean names, a container is doomed exactly when it is managed and not kept. */
  lemma DoomedAreManaged(s: State, aggressive: bool, active: set<string>)
    requires forall c | c in s.containers :: CleanName(c.name)
    ensures var doomed := DoomedNames(Names(Matching(s.containers, "yourpm-")), aggressive, active);
      forall c | c in s.containers :: c.name in doomed <==> Contains(c.name, "yourpm-") && (aggressive || c.name !in active)
  {
    var managed := Matching(s.containers, "yourpm-");
    var names := Names(managed);
    ManagedNamesClean(s);
    TrimsOfClean(names);
    var doomed := DoomedNames(names, aggressive, active);
    forall c | c in s.containers
      ensures c.name in doomed <==> Contains(c.name, "yourpm-") && (aggressive || c.name !in active)
    {
      DoomedNamesMembers(names, aggressive, active, c.name);
      ManagedNameListed(s.containers, c);
    }
  }

  /** A container's name is in the managed listing exactly when it is in the `yourpm-` namespace. */
  lemma ManagedNameListed(cs: seq<Instance>, c: Instance)
    requires c in cs && c.name != ""
    ensures c.name in Names(Matching(cs, "yourpm-")) <==> Contains(c.name, "yourpm-")
  {
    var managed := Matching(cs, "yourpm-");
    var names := Names(managed);
    if Contains(c.name, "yourpm-") {
      var k :| 0 <= k < |managed| && managed[k] == c;
      assert names[k] == c.name;
    }
    if c.name in names {
      var k :| 0 <= k < |names| && names[k] == c.name;
      assert managed[k] in managed;
    }
  }

  /**
   * With the daemon up and every name clean, pruneContainers leaves
   * exactly the containers outside the `yourpm-` namespace and, unless
   * aggressive, those the active set names, running or not; it reports
   * no error and touches nothing but the containers.
   */
  lemma PruneKeepsExactly(s: State, aggressive: bool, active: set<string>)
    requires !s.down && forall c | c in s.containers :: CleanName(c.name)
    ensures var e := PrunedContainers(s, aggressive, active);
      e.ok && e.state == s.(containers := e.state.containers)
      && forall c :: c in e.state.containers <==>
           c in s.containers && (!Contains(c.name, "yourpm-") || (!aggressive && c.name in active))
  {
    ListNamesAnswer(s);
    var managed := Matching(s.containers, "yourpm-");
    var names := Names(managed);
    if names == [] {
      assert managed == [];
    } else {
      ManagedNamesClean(s);
      ListingRoundTrip(names);
      RemoveDoomedState(s, names, aggressive, active);
      DoomedAreManaged(s, aggressive, active);
    }
  }

  /** The configured containers survive a non-aggressive prune, running or stopped. */
  lemma ConfiguredSurvive(s: State, cfg: Config.Config, c: Instance)
    requires !s.down && forall x | x in s.containers :: CleanName(x.name)
    requires c in s.containers && exists n | n in cfg.containers :: c.name == "yourpm-" + n
    ensures c in PrunedContainers(s, false, Prune.Protected(Some(cfg))).state.containers
  {
    PruneKeepsExactly(s, false, Prune.Protected(Some(cfg)));
  }

  // ----- the orphaned-link sweep of cmd.go -----

  /**
   * The body of the sweep for one entry, with the inner loop over the
   * configured containers that jumps past the removal on the first one
   * owning the store directory.
   */
  method OrphanDecision(fs: FileSystem, baseDir: Path, name: string, cfg: Config.Config) returns (remove: bool)
    ensures remove == Symlinks.ShouldRemove(fs.tree, baseDir, name, cfg.containers.Keys)
  {
    var symlinkPath := Symlinks.ProfileBin(baseDir) + [name];
    var info := Lstat(fs.tree, symlinkPath);
    if info.Err? || !info.value.Link? {
      return false;
    }
    var target := Readlink(fs.tree, symlinkPath);
    if target.Err? {
      return false;
    }
    if IsNotExist(Stat(fs.tree, symlinkPath)) {
      return true;
    }
    var storePath := Symlinks.StoreDir(baseDir);
    if !IsPrefix(storePath, target.value) {
      return false;
    }
    var rel := target.value[|storePath|..];
    var storeDirName := Symlinks.StoreDirName(rel);
    var linkTarget := Readlink(fs.tree, Symlinks.MarkerPath(storePath, rel));
    if linkTarget.Err? || linkTarget.value != Symlinks.ContainerExecPath(baseDir) {
      return false;
    }
    var keys := cfg.containers.Keys;
    var keep := false;
    while keys != {} && !keep
      invariant keys <= cfg.containers.Keys
      invariant keep ==> Symlinks.ActiveMatch(storeDirName, cfg.containers.Keys)
      invariant !keep ==> forall c | c in cfg.containers.Keys - keys :: !HasPrefix(storeDirName, c + "-")
      decreases keys
    {
      var c :| c in keys;
      if HasPrefix(storeDirName, c + "-") {
        keep := true;
      }
      keys := keys - {c};
    }
    return !keep;
  }

  /**
   * cleanupOrphanedSymlinks. `cfg` is what reloading the configuration
   * gave; a failed load counts as a configuration with no containers.
   * It removes what the symlink manager's sweep removes.
   */
  method CleanupOrphanedSymlinks(fs: FileSystem, baseDir: Path, cfg: Option<Config.Config>) returns (err: Option<FsError>)
    modifies fs
    ensures Symlinks.Swept(fs.tree, err) == Symlinks.Sweep(old(fs.tree), baseDir, Config.ActiveContainers(cfg))
  {
    var profileBin := Symlinks.ProfileBin(baseDir);
    if IsNotExist(Stat(fs.tree, profileBin)) {
      return None;
    }
    var loaded := if cfg.Some? then cfg.value else Config.Config("", map[], map[]);
    assert loaded.containers.Keys == Config.ActiveContainers(cfg);
    var entries := fs.ReadDir(profileBin);
    if entries.Err? {
      return Some(entries.error);
    }
    SweepEntries(fs, baseDir, entries.value, loaded);
    return None;
  }

  /** The loop of cleanupOrphanedSymlinks over the sorted entries of the profile bin directory. */
  method SweepEntries(fs: FileSystem, baseDir: Path, names: seq<string>, loaded: Config.Config)
    modifies fs
    ensures fs.tree == Symlinks.SweepNames(old(fs.tree), baseDir, names, loaded.containers.Keys)
  {
    ghost var t0 := fs.tree;
    var i := 0;
    while i < |names|
      invariant 0 <= i <= |names|
      invariant Symlinks.SweepNames(fs.tree, baseDir, names[i..], loaded.containers.Keys)
        == Symlinks.SweepNames(t0, baseDir, names, loaded.containers.Keys)
      decreases |names| - i
    {
      assert names[i..][1..] == names[i + 1..];
      var shouldRemove := OrphanDecision(fs, baseDir, names[i], loaded);
      if shouldRemove {
        var _ := fs.Remove(Symlinks.ProfileBin(baseDir) + [names[i]]);
      }
      i := i + 1;
    }
  }

  // ----- the commands -----

  /** pruneContainers: list, remove, then sweep unless the listing failed. */
  method PruneManaged(d: Docker, fs: FileSystem, baseDir: Path, cfg: Config.Config, aggressive: bool) returns (err: Option<DockerClient.CmdError>)
    modifies d, fs
    ensures var e := PrunedContainers(old(d.state), aggressive, Prune.Protected(Some(cfg)));
      d.state == e.state && d.log == old(d.log) + e.calls && (err.None? <==> e.ok)
    ensures fs.tree == if err.None? then Symlinks.Sweep(old(fs.tree), baseDir, cfg.containers.Keys).tree else old(fs.tree)
  {
    ghost var s0 := d.state;
    var ok, output := d.Invoke(ListNames);
    if !ok {
      return Some(DockerClient.CmdFailed(ListNames));
    }
    var trimmed := TrimSpace(output);
    if trimmed == "" {
      var _ := CleanupOrphanedSymlinks(fs, baseDir, Some(cfg));
      return None;
    }
    var containerNames := Split(trimmed, '\n');
    var activeContainers := Prune.ProtectedNames(Some(cfg));
    RemoveLines(d, containerNames, aggressive, activeContainers);
    LogAssoc(old(d.log), [ListNames], RemoveDoomed(s0, containerNames, aggressive, activeContainers).calls);
    var _ := CleanupOrphanedSymlinks(fs, baseDir, Some(cfg));
    return None;
  }

  /** The body of the loop of pruneContainers. */
  method RemoveLine(d: Docker, line: string, aggressive: bool, active: set<string>)
    modifies d
    ensures var step := LineStep(old(d.state), line, aggressive, active);
      d.state == step.state && d.log == old(d.log) + step.calls
  {
    var containerName := TrimSpace(line);
    if containerName == "" {
      return;
    }
    if !aggressive && containerName in active {
      return;
    }
    var _ := DockerClient.Remove(d, containerName);
  }

  /** The body of the loop of pruneAllYourpmContainers. */
  method RemoveAnyLine(d: Docker, line: string)
    modifies d
    ensures var step := LineStep(old(d.state), line, true, {});
      d.state == step.state && d.log == old(d.log) + step.calls
  {
    var containerName := TrimSpace(line);
    if containerName == "" {
      return;
    }
    var _ := DockerClient.Remove(d, containerName);
  }

  /** The loop of pruneContainers over the listed lines. */
  method RemoveLines(d: Docker, lines: seq<string>, aggressive: bool, active: set<string>)
    modifies d
    ensures var e := RemoveDoomed(old(d.state), lines, aggressive, active);
      d.state == e.state && d.log == old(d.log) + e.calls
  {
    ghost var s0, log0 := d.state, d.log;
    var i := 0;
    while i < |lines|
      invariant 0 <= i <= |lines|
      invariant d.state == RemoveDoomed(s0, lines[..i], aggressive, active).state
      invariant d.log == log0 + RemoveDoomed(s0, lines[..i], aggressive, active).calls
    {
      ghost var prev := RemoveDoomed(s0, lines[..i], aggressive, active);
      RemoveDoomedStep(s0, lines, i, aggressive, active);
      RemoveLine(d, lines[i], aggressive, active);
      LogAssoc(log0, prev.calls, LineStep(prev.state, lines[i], aggressive, active).calls);
      i := i + 1;
    }
    assert lines[..|lines|] == lines;
  }

  /** pruneAllYourpmContainers: the same listing, every listed container removed, and a sweep with no configuration. */
  method PruneAllManaged(d: Docker, fs: FileSystem, baseDir: Path) returns (err: Option<DockerClient.CmdError>)
    modifies d, fs
    ensures var e := PrunedContainers(old(d.state), true, {});
      d.state == e.state && d.log == old(d.log) + e.calls && (err.None? <==> e.ok)
    ensures fs.tree == if err.None? then Symlinks.Sweep(old(fs.tree), baseDir, {}).tree else old(fs.tree)
  {
    ghost var s0 := d.state;
    var ok, output := d.Invoke(ListNames);
    if !ok {
      return Some(DockerClient.CmdFailed(ListNames));
    }
    var trimmed := TrimSpace(output);
    if trimmed == "" {
      var _ := CleanupOrphanedSymlinks(fs, baseDir, None);
      return None;
    }
    var containerNames := Split(trimmed, '\n');
    RemoveAllLines(d, containerNames);
    LogAssoc(old(d.log), [ListNames], RemoveDoomed(s0, containerNames, true, {}).calls);
    var _ := CleanupOrphanedSymlinks(fs, baseDir, None);
    return None;
  }

  /** The loop of pruneAllYourpmContainers: every non-blank line removed. */
  method RemoveAllLines(d: Docker, lines: seq<string>)
    modifies d
    ensures var e := RemoveDoomed(old(d.state), lines, true, {});
      d.state == e.state && d.log == old(d.log) + e.calls
  {
    ghost var s0, log0 := d.state, d.log;
    var i := 0;
    while i < |lines|
      invariant 0 <= i <= |lines|
      invariant d.state == RemoveDoomed(s0, lines[..i], true, {}).state
      invariant d.log == log0 + RemoveDoomed(s0, lines[..i], true, {}).calls
    {
      ghost var prev := RemoveDoomed(s0, lines[..i], true, {});
      RemoveDoomedStep(s0, lines, i, true, {});
      RemoveAnyLine(d, lines[i]);
      LogAssoc(log0, prev.calls, LineStep(prev.state, lines[i], true, {}).calls);
      i := i + 1;
    }
    assert lines[..|lines|] == lines;
  }

  /**
   * PruneContainers: with a configuration, prune against it; without
   * one, remove every managed container only when `--all` is given, and
   * otherwise touch nothing.
   */
  method PruneContainers(d: Docker, fs: FileSystem, baseDir: Path, args: seq<string>, cfg: Option<Config.Config>)
    modifies d, fs
    ensures cfg.Some? ==>
      var e := PrunedContainers(old(d.state), "--all" in args, Prune.Protected(cfg));
      d.state == e.state && d.log == old(d.log) + e.calls
      && fs.tree == if e.ok then Symlinks.Sweep(old(fs.tree), baseDir, cfg.value.containers.Keys).tree else old(fs.tree)
    ensures cfg.None? && "--all" in args ==>
      var e := PrunedContainers(old(d.state), true, {});
      d.state == e.state && d.log == old(d.log) + e.calls
      && fs.tree == if e.ok then Symlinks.Sweep(old(fs.tree), baseDir, {}).tree else old(fs.tree)
    ensures cfg.None? && "--all" !in args ==> d.state == old(d.state) && d.log == old(d.log) && fs.tree == old(fs.tree)
  {
    var aggressive := AllFlag(args);
    if cfg.Some? {
      var _ := PruneManaged(d, fs, baseDir, cfg.value, aggressive);
    } else if aggressive {
      var _ := PruneAllManaged(d, fs, baseDir);
    }
  }

  /** pruneImages' arguments: `-a` before `-f` when aggressive. */
  function ImagePruneArgs(aggressive: bool): Cmd {
    if aggressive then ["image", "prune", "-a", "-f"] else ["image", "prune", "-f"]
  }

  /**
   * The command's image prune does what the client's does: dangling
   * images only (none in this model) by default, and with `--all` every
   * image no container uses; containers are never touched.
   */
  lemma ImagePruneEffect(s: State, aggressive: bool)
    ensures Interpret(s, ImagePruneArgs(aggressive)) == Interpret(s, DockerClient.PruneArgs(aggressive))
    ensures var r := Interpret(s, ImagePruneArgs(aggressive));
      r.state.containers == s.containers && (r.ok <==> !s.down)
      && forall i :: i in r.state.images <==> i in s.images && (s.down || !aggressive || exists c | c in s.containers :: c.image == i)
  {
    var a, b := ImagePruneArgs(aggressive), DockerClient.PruneArgs(aggressive);
    assert !IsQuery(a) && a[0] != "start" && a[0] != "stop" && a[0] != "rm" && a[0] != "run" && a[0] != "pull";
    assert !IsQuery(b) && b[0] != "start" && b[0] != "stop" && b[0] != "rm" && b[0] != "run" && b[0] != "pull";
  }

  /** PruneImages. */
  method PruneImages(d: Docker, args: seq<string>) returns (err: Option<DockerClient.CmdError>)
    modifies d
    ensures var r := Interpret(old(d.state), ImagePruneArgs("--all" in args));
      d.state == r.state && (err.None? <==> r.ok)
    ensures d.log == old(d.log) + [ImagePruneArgs("--all" in args)]
  {
    var aggressive := AllFlag(args);
    err := DockerClient.Issue(d, ImagePruneArgs(aggressive));
  }
}

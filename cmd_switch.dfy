/**
 * The container half of `switch` in pkg/cmd/cmd.go. For each configured
 * container it:
 * - makes the container's store directory;
 * - builds the executor when it is missing;
 * - points one link per command at the executor and links those commands
 *   into the profile;
 * - removes a container whose image no longer matches the configuration;
 * - pulls the image unless it is already present.
 * The first failure ends the command.
 */
module CmdSwitch {
  import opened Wrappers
  import opened Paths
  import opened Os
  import opened Disk
  import opened Engine
  import opened DockerClient
  import opened Config
  import opened Containers
  import Prune
  import Profile
  import Symlinks
  import ContainerExec

  // ----- ensureContainerVersion -----

  /**
   * ensureContainerVersion: nothing to do when the full listing does not
   * show the container or its image cannot be read; `rm -f` when the
   * image differs from `image:version`, failing only if that fails.
   */
  function VersionEffect(s: State, name: string, cc: ContainerConfig): Effect {
    var full := FullName(name);
    if !Reports(s, true, full) then Effect(s, [PsNames(true)], true)
    else
      match ImageOf(s, full)
      case Err(_) => Effect(s, [PsNames(true), InspectImage(full)], true)
      case Ok(current) =>
        if current == ContainerExec.ImageRef(cc) then Effect(s, [PsNames(true), InspectImage(full)], true)
        else
          var r := Interpret(s, Prune.RemoveCmd(full));
          Effect(r.state, [PsNames(true), InspectImage(full), Prune.RemoveCmd(full)], r.ok)
  }

  method EnsureContainerVersion(d: Docker, name: string, cc: ContainerConfig) returns (err: Option<CmdError>)
    modifies d
    ensures var e := VersionEffect(old(d.state), name, cc);
      d.state == e.state && d.log == old(d.log) + e.calls && (err.None? <==> e.ok)
  {
    ghost var s0 := d.state;
    var containerFullName := FullName(name);
    var desiredImage := ContainerExec.ImageRef(cc);
    var present := Exists(d, containerFullName);
    if !present {
      return None;
    }
    var currentImage := GetContainerImage(d, containerFullName);
    assert d.state == s0 && currentImage == ImageOf(s0, containerFullName);
    if currentImage.Err? {
      assert d.log == old(d.log) + [PsNames(true), InspectImage(containerFullName)];
      return None;
    }
    if currentImage.value != desiredImage {
      ghost var r := Interpret(s0, Prune.RemoveCmd(containerFullName));
      assert VersionEffect(s0, name, cc) == Effect(r.state, [PsNames(true), InspectImage(containerFullName), Prune.RemoveCmd(containerFullName)], r.ok);
      err := DockerClient.Remove(d, containerFullName);
      assert d.state == r.state && (err.None? <==> r.ok);
      assert d.log == old(d.log) + [PsNames(true), InspectImage(containerFullName), Prune.RemoveCmd(containerFullName)];
    } else {
      assert d.log == old(d.log) + [PsNames(true), InspectImage(containerFullName)];
      err := None;
    }
  }

  lemma VersionQueries(full: string)
    ensures IsQuery(PsNames(true)) && IsQuery(InspectImage(full)) && !IsQuery(Prune.RemoveCmd(full))
    ensures Mutations([PsNames(true)]) == [] && Mutations([PsNames(true), InspectImage(full)]) == []
    ensures Mutations([PsNames(true), InspectImage(full), Prune.RemoveCmd(full)]) == [Prune.RemoveCmd(full)]
  {
    var calls := [PsNames(true), InspectImage(full), Prune.RemoveCmd(full)];
    assert calls[1..][1..] == [Prune.RemoveCmd(full)];
    assert [PsNames(true), InspectImage(full)][1..] == [InspectImage(full)];
  }

  /** An absent container, an unreadable image or a matching one: no error and no change. */
  lemma VersionLeavesAlone(s: State, name: string, cc: ContainerConfig)
    requires var full := FullName(name);
      !Reports(s, true, full) || ImageOf(s, full).Err? || ImageOf(s, full) == Ok(ContainerExec.ImageRef(cc))
    ensures var e := VersionEffect(s, name, cc);
      e.ok && e.state == s && Mutations(e.calls) == []
  {
    VersionQueries(FullName(name));
  }

  /**
   * A container showing another image: exactly one `rm -f` and no create;
   * the container is gone afterwards, the others and the images are as
   * they were, and the step fails only if the runtime has no container
   * of that exact name.
   */
  lemma VersionRemovesStale(s: State, name: string, cc: ContainerConfig)
    requires var full := FullName(name);
      Reports(s, true, full) && ImageOf(s, full).Ok? && ImageOf(s, full).value != ContainerExec.ImageRef(cc)
    ensures var e := VersionEffect(s, name, cc);
      var full := FullName(name);
      Mutations(e.calls) == [Prune.RemoveCmd(full)]
      && (e.ok <==> Has(s.containers, full))
      && e.state == s.(containers := e.state.containers)
      && forall c :: c in e.state.containers <==> c in s.containers && c.name != full
  {
    var full := FullName(name);
    VersionQueries(full);
    if s.down {
      ReportsNothingWhenDown(s, true, full);
    }
    RmEffect(s, full);
  }

  /**
   * Against the runtime itself: when the container exists with a clean
   * image name, it stays exactly when its image is the configured one.
   */
  lemma VersionAgainstRuntime(s: State, name: string, cc: ContainerConfig, c: Instance)
    requires !s.down && Find(s.containers, FullName(name)) == Some(c)
    requires |c.image| > 0 ==> !Strings.IsSpace(c.image[0]) && !Strings.IsSpace(c.image[|c.image| - 1])
    ensures var e := VersionEffect(s, name, cc);
      e.ok && forall x :: x in e.state.containers <==>
        x in s.containers && (c.image == ContainerExec.ImageRef(cc) || x.name != FullName(name))
  {
    ReportsExisting(s, FullName(name));
    ImageOfExisting(s, FullName(name), c);
    if c.image != ContainerExec.ImageRef(cc) {
      VersionRemovesStale(s, name, cc);
    }
  }

  // ----- ensureDockerImage -----

  function PullCmd(image: string): Cmd {
    ["pull", image]
  }

  /** ensureDockerImage: `image inspect`, then a pull only when that fails. */
  function ImageEffect(s: State, image: string): Effect {
    var inspect := ["image", "inspect", image];
    if Interpret(s, inspect).ok then Effect(s, [inspect], true)
    else
      var r := Interpret(s, PullCmd(image));
      Effect(r.state, [inspect, PullCmd(image)], r.ok)
  }

  method EnsureDockerImage(d: Docker, image: string) returns (err: Option<CmdError>)
    modifies d
    ensures var e := ImageEffect(old(d.state), image);
      d.state == e.state && d.log == old(d.log) + e.calls && (err.None? <==> e.ok)
  {
    ImageInspectAnswer(d.state, image);
    var present := ImageExists(d, image);
    if present {
      return None;
    }
    err := PullImage(d, image);
    assert d.log == old(d.log) + [["image", "inspect", image], PullCmd(image)];
  }

  lemma ImageInspectAnswer(s: State, image: string)
    ensures Interpret(s, ["image", "inspect", image]).ok <==> !s.down && image in s.images
    ensures IsQuery(["image", "inspect", image]) && !IsQuery(PullCmd(image))
  {
    var cmd := ["image", "inspect", image];
    assert cmd[0] != "ps" && cmd[0] != "exec" && cmd[..2] == ["image", "inspect"];
  }

  /**
   * The image is pulled exactly when it is not present; the step succeeds
   * exactly when the image is present or can be pulled, and afterwards it
   * is present; containers are untouched and no image is lost.
   */
  lemma ImageEnsured(s: State, image: string)
    ensures var e := ImageEffect(s, image);
      Mutations(e.calls) == (if !s.down && image in s.images then [] else [PullCmd(image)])
      && (e.ok <==> !s.down && (image in s.images || image in s.registry))
      && (e.ok ==> image in e.state.images)
      && e.state.containers == s.containers && s.images <= e.state.images
  {
    ImageInspectAnswer(s, image);
    var inspect := ["image", "inspect", image];
    assert [inspect, PullCmd(image)][1..] == [PullCmd(image)];
    var pull := PullCmd(image);
    assert !IsQuery(pull) && pull[0] != "start" && pull[0] != "stop" && pull[0] != "rm" && pull[0] != "run";
  }

  // ----- the files of one container -----

  datatype SetupError =
    | NotInManifest(msg: string)     // "Container not found in manifest"
    | StoreDirFailed(e: FsError)     // "Failed to create container store path"
    | BuildFailed                    // "Failed to build container executor"
    | SymlinkFailed(command: string, e: FsError)
    | LinkFailed(linkErr: Profile.LinkError)
    | VersionFailed                  // "Failed to ensure container version"
    | ImageFailed                    // "Failed to ensure Docker image"

  /** `baseDir/store/<name>-<version>`. */
  function StorePath(baseDir: Path, name: string, cc: ContainerConfig): Path {
    baseDir + ["store", name + "-" + cc.version]
  }

  function ProfileRoot(baseDir: Path): Path {
    baseDir + ["profiles", "default"]
  }

  datatype Built = Built(tree: Tree, ok: bool)

  /**
   * buildContainerExec: create the executor's directory, then the
   * compiler writes the executable; `compiled` is what it produces, or
   * None when it fails.
   */
  function BuildExecutor(t: Tree, execPath: Path, compiled: Option<Content>): Built
    requires |execPath| > 0
  {
    match MkdirAll(t, Parent(execPath))
    case Err(_) => Built(t, false)
    case Ok(t1) =>
      if compiled.None? then Built(t1, false)
      else
        match WriteFile(t1, execPath, compiled.value, Mode0755)
        case Err(_) => Built(t1, false)
        case Ok(t2) => Built(t2, true)
  }

  method BuildContainerExec(fs: FileSystem, execPath: Path, compiled: Option<Content>) returns (ok: bool)
    requires |execPath| > 0
    modifies fs
    ensures Built(fs.tree, ok) == BuildExecutor(old(fs.tree), execPath, compiled)
  {
    var e := fs.MkdirAll(Parent(execPath));
    if e.Some? {
      return false;
    }
    if compiled.None? {
      return false;
    }
    e := fs.WriteFile(execPath, compiled.value, Mode0755);
    return e.None?;
  }

  datatype Staged = Staged(tree: Tree, err: Option<SetupError>)

  /** The loop over the commands: each entry replaced by a link to the executor, stopping at the first that cannot be made. */
  function PlaceCommands(t: Tree, execPath: Path, storePath: Path, commands: seq<string>): Staged
    decreases |commands|
  {
    if commands == [] then Staged(t, None)
    else
      var o := Relink(t, execPath, storePath + [commands[0]]);
      if o.err.Some? then Staged(o.tree, Some(SymlinkFailed(commands[0], o.err.value)))
      else PlaceCommands(o.tree, execPath, storePath, commands[1..])
  }

  method PlaceCommandLinks(fs: FileSystem, execPath: Path, storePath: Path, commands: seq<string>) returns (err: Option<SetupError>)
    modifies fs
    ensures Staged(fs.tree, err) == PlaceCommands(old(fs.tree), execPath, storePath, commands)
  {
    var i := 0;
    while i < |commands|
      invariant 0 <= i <= |commands|
      invariant PlaceCommands(fs.tree, execPath, storePath, commands[i..]) == PlaceCommands(old(fs.tree), execPath, storePath, commands)
      decreases |commands| - i
    {
      assert commands[i..][1..] == commands[i + 1..];
      var symlinkPath := storePath + [commands[i]];
      var _ := fs.Remove(symlinkPath);
      var e := fs.Symlink(execPath, symlinkPath);
      if e.Some? {
        return Some(SymlinkFailed(commands[i], e.value));
      }
      i := i + 1;
    }
    return None;
  }

  /**
   * When the loop gets through, every command's entry is a link to the
   * executor, every other entry is as it was, and nothing else appears.
   */
  lemma {:induction false} PlaceCommandsLinks(t: Tree, execPath: Path, storePath: Path, commands: seq<string>)
    requires PlaceCommands(t, execPath, storePath, commands).err.None?
    ensures var r := PlaceCommands(t, execPath, storePath, commands).tree;
      (forall c | c in commands :: storePath + [c] in r && r[storePath + [c]] == Link(execPath))
      && (forall q | q in t && (forall c | c in commands :: q != storePath + [c]) :: q in r && r[q] == t[q])
      && (forall q | q in r && q !in t :: exists c | c in commands :: q == storePath + [c])
    decreases |commands|
  {
    if commands != [] {
      var p0 := storePath + [commands[0]];
      var t1 := Relink(t, execPath, p0).tree;
      PlaceCommandsLinks(t1, execPath, storePath, commands[1..]);
      var r := PlaceCommands(t, execPath, storePath, commands).tree;
      forall c | c in commands ensures storePath + [c] in r && r[storePath + [c]] == Link(execPath) {
        if c !in commands[1..] {
          assert c == commands[0];
          forall c' | c' in commands[1..] ensures p0 != storePath + [c'] {
            assert (storePath + [c'])[|storePath|] == c';
            assert p0[|storePath|] == commands[0];
          }
        }
      }
      forall q | q in t && (forall c | c in commands :: q != storePath + [c]) ensures q in r && r[q] == t[q] {
        assert q != p0;
      }
      forall q | q in r && q !in t ensures exists c | c in commands :: q == storePath + [c] {
        if q != p0 {
          assert q !in t1;
          var c :| c in commands[1..] && q == storePath + [c];
          assert c in commands;
        }
      }
    }
  }

  /** The store directory, then the executor when there is none yet. */
  function Prepared(t: Tree, baseDir: Path, name: string, cc: ContainerConfig, compiled: Option<Content>): Staged {
    match MkdirAll(t, StorePath(baseDir, name, cc))
    case Err(e) => Staged(t, Some(StoreDirFailed(e)))
    case Ok(t1) =>
      var execPath := Symlinks.ContainerExecPath(baseDir);
      var b := if IsNotExist(Stat(t1, execPath)) then BuildExecutor(t1, execPath, compiled) else Built(t1, true);
      Staged(b.tree, if b.ok then None else Some(BuildFailed))
  }

  /**
   * The file-system part of one container's setup, up to the profile
   * links: store directory, executor, command links, profile links.
   */
  function StageFiles(t: Tree, baseDir: Path, name: string, cc: ContainerConfig, def: ContainerDefinition, compiled: Option<Content>): Staged {
    var storePath := StorePath(baseDir, name, cc);
    var p := Prepared(t, baseDir, name, cc, compiled);
    if p.err.Some? then p
    else
      var placed := PlaceCommands(p.tree, Symlinks.ContainerExecPath(baseDir), storePath, def.commands);
      if placed.err.Some? then placed
      else
        var linked := Profile.LinkOutcome(placed.tree, ProfileRoot(baseDir), storePath, def.commands);
        Staged(linked.tree, if linked.err.Some? then Some(LinkFailed(linked.err.value)) else None)
  }

  datatype SetupOutcome = SetupOutcome(tree: Tree, state: State, calls: seq<Cmd>, err: Option<SetupError>)

  /** One turn of the container loop of `switch`: manifest lookup, files, then the runtime. */
  function SetupStep(t: Tree, s: State, baseDir: Path, name: string, cc: ContainerConfig, m: ContainerManifest, compiled: Option<Content>): SetupOutcome {
    match GetContainer(m, name)
    case Err(msg) => SetupOutcome(t, s, [], Some(NotInManifest(msg)))
    case Ok(def) =>
      var f := StageFiles(t, baseDir, name, cc, def, compiled);
      if f.err.Some? then SetupOutcome(f.tree, s, [], f.err)
      else
        var r := Reconcile(s, name, cc);
        SetupOutcome(f.tree, r.state, r.calls, r.err)
  }

  datatype Reconciled = Reconciled(state: State, calls: seq<Cmd>, err: Option<SetupError>)

  /** The runtime part of one container's setup: its version, then its image. */
  function Reconcile(s: State, name: string, cc: ContainerConfig): Reconciled {
    var v := VersionEffect(s, name, cc);
    if !v.ok then Reconciled(v.state, v.calls, Some(VersionFailed))
    else
      var im := ImageEffect(v.state, ContainerExec.ImageRef(cc));
      Reconciled(im.state, v.calls + im.calls, if im.ok then None else Some(ImageFailed))
  }

  method StageContainerFiles(fs: FileSystem, prof: Profile.Profile, baseDir: Path, name: string, cc: ContainerConfig, def: ContainerDefinition, compiled: Option<Content>)
    returns (err: Option<SetupError>)
    requires prof.root == ProfileRoot(baseDir)
    modifies fs
    ensures Staged(fs.tree, err) == StageFiles(old(fs.tree), baseDir, name, cc, def, compiled)
  {
    var containerStorePath := StorePath(baseDir, name, cc);
    err := PrepareStore(fs, baseDir, name, cc, compiled);
    if err.Some? {
      return err;
    }
    var execPath := Symlinks.ContainerExecPath(baseDir);
    err := PlaceCommandLinks(fs, execPath, containerStorePath, def.commands);
    if err.Some? {
      return err;
    }
    var linkErr := prof.Link(fs, containerStorePath, def.commands);
    if linkErr.Some? {
      return Some(LinkFailed(linkErr.value));
    }
    return None;
  }

  method PrepareStore(fs: FileSystem, baseDir: Path, name: string, cc: ContainerConfig, compiled: Option<Content>)
    returns (err: Option<SetupError>)
    modifies fs
    ensures Staged(fs.tree, err) == Prepared(old(fs.tree), baseDir, name, cc, compiled)
  {
    var e := fs.MkdirAll(StorePath(baseDir, name, cc));
    if e.Some? {
      return Some(StoreDirFailed(e.value));
    }
    var execPath := Symlinks.ContainerExecPath(baseDir);
    if IsNotExist(Stat(fs.tree, execPath)) {
      var ok := BuildContainerExec(fs, execPath, compiled);
      if !ok {
        return Some(BuildFailed);
      }
    }
    return None;
  }

  method SetupContainer(fs: FileSystem, d: Docker, prof: Profile.Profile, baseDir: Path, name: string, cc: ContainerConfig,
                        m: ContainerManifest, compiled: Option<Content>) returns (err: Option<SetupError>)
    requires prof.root == ProfileRoot(baseDir)
    modifies fs, d
    ensures var o := SetupStep(old(fs.tree), old(d.state), baseDir, name, cc, m, compiled);
      fs.tree == o.tree && d.state == o.state && d.log == old(d.log) + o.calls && err == o.err
  {
    var containerDef := GetContainer(m, name);
    if containerDef.Err? {
      return Some(NotInManifest(containerDef.error));
    }
    err := StageContainerFiles(fs, prof, baseDir, name, cc, containerDef.value, compiled);
    if err.Some? {
      return err;
    }
    ghost var log1 := d.log;
    var versionErr := EnsureContainerVersion(d, name, cc);
    if versionErr.Some? {
      return Some(VersionFailed);
    }
    ghost var v := VersionEffect(old(d.state), name, cc);
    var image := ContainerExec.ImageRef(cc);
    var imageErr := EnsureDockerImage(d, image);
    LogAssoc(log1, v.calls, ImageEffect(v.state, image).calls);
    if imageErr.Some? {
      return Some(ImageFailed);
    }
    return None;
  }

  /** Profile links go under `profiles/default/bin`, so they never replace an entry of a store directory. */
  lemma ProfileKeepsStore(t: Tree, baseDir: Path, storePath: Path, commands: seq<string>, c: string)
    requires IsPrefix(baseDir + ["store"], storePath) && |storePath| == |baseDir| + 2
    requires Profile.LinkOutcome(t, ProfileRoot(baseDir), storePath, commands).err.None?
    requires storePath + [c] in t
    ensures var r := Profile.LinkOutcome(t, ProfileRoot(baseDir), storePath, commands).tree;
      storePath + [c] in r && r[storePath + [c]] == t[storePath + [c]]
  {
    var root := ProfileRoot(baseDir);
    var q := storePath + [c];
    assert q[|baseDir|] == storePath[|baseDir|] == "store";
    forall b | b in commands ensures q != Profile.BinDir(root) + [b] {
      assert (Profile.BinDir(root) + [b])[|baseDir|] == "profiles";
    }
    ProfileKeepsOthers(t, root, storePath, commands, q);
  }

  /** The profile links replace only the entries they are made at. */
  lemma ProfileKeepsOthers(t: Tree, root: Path, storePath: Path, bins: seq<string>, q: Path)
    requires Profile.LinkOutcome(t, root, storePath, bins).err.None?
    requires q in t && forall b | b in bins :: q != Profile.BinDir(root) + [b]
    ensures var r := Profile.LinkOutcome(t, root, storePath, bins).tree;
      q in r && r[q] == t[q]
  {
    Profile.LinkPlacesLinks(t, root, storePath, bins);
    var t1 := MkdirAll(t, Profile.BinDir(root)).value;
    assert Extends(t, t1);
    assert q in t1 && t1[q] == t[q];
  }

  /**
   * After the files part has gone through, every command of the container
   * has its link to the executor in the store directory and its profile
   * link to that entry.
   */
  lemma StageFilesLinks(t: Tree, baseDir: Path, name: string, cc: ContainerConfig, def: ContainerDefinition, compiled: Option<Content>)
    requires StageFiles(t, baseDir, name, cc, def, compiled).err.None?
    ensures var r := StageFiles(t, baseDir, name, cc, def, compiled).tree;
      var storePath := StorePath(baseDir, name, cc);
      forall c | c in def.commands ::
        storePath + [c] in r && r[storePath + [c]] == Link(Symlinks.ContainerExecPath(baseDir))
        && Symlinks.ProfileBin(baseDir) + [c] in r && r[Symlinks.ProfileBin(baseDir) + [c]] == Link(storePath + [c])
  {
    var storePath := StorePath(baseDir, name, cc);
    var p := Prepared(t, baseDir, name, cc, compiled);
    StageFilesParts(t, baseDir, name, cc, def, compiled);
    forall c | c in def.commands
      ensures var r := StageFiles(t, baseDir, name, cc, def, compiled).tree;
        storePath + [c] in r && r[storePath + [c]] == Link(Symlinks.ContainerExecPath(baseDir))
        && Symlinks.ProfileBin(baseDir) + [c] in r && r[Symlinks.ProfileBin(baseDir) + [c]] == Link(storePath + [c])
    {
      LinksOfCommand(p.tree, baseDir, storePath, def.commands, c);
    }
  }

  /** The command links and then the profile links, from whatever tree the store was prepared in. */
  lemma LinksOfCommand(u: Tree, baseDir: Path, storePath: Path, commands: seq<string>, c: string)
    requires IsPrefix(baseDir + ["store"], storePath) && |storePath| == |baseDir| + 2
    requires c in commands
    requires PlaceCommands(u, Symlinks.ContainerExecPath(baseDir), storePath, commands).err.None?
    requires var placed := PlaceCommands(u, Symlinks.ContainerExecPath(baseDir), storePath, commands);
      Profile.LinkOutcome(placed.tree, ProfileRoot(baseDir), storePath, commands).err.None?
    ensures var placed := PlaceCommands(u, Symlinks.ContainerExecPath(baseDir), storePath, commands);
      var r := Profile.LinkOutcome(placed.tree, ProfileRoot(baseDir), storePath, commands).tree;
      storePath + [c] in r && r[storePath + [c]] == Link(Symlinks.ContainerExecPath(baseDir))
      && Symlinks.ProfileBin(baseDir) + [c] in r && r[Symlinks.ProfileBin(baseDir) + [c]] == Link(storePath + [c])
  {
    var execPath := Symlinks.ContainerExecPath(baseDir);
    var placed := PlaceCommands(u, execPath, storePath, commands);
    PlaceCommandsLinks(u, execPath, storePath, commands);
    assert storePath + [c] in placed.tree && placed.tree[storePath + [c]] == Link(execPath);
    ProfileLinksAt(placed.tree, baseDir, storePath, commands, c);
  }

  /** Linking the profile keeps the store entry of a command and adds its profile link. */
  lemma ProfileLinksAt(v: Tree, baseDir: Path, storePath: Path, commands: seq<string>, c: string)
    requires IsPrefix(baseDir + ["store"], storePath) && |storePath| == |baseDir| + 2
    requires c in commands && storePath + [c] in v
    requires Profile.LinkOutcome(v, ProfileRoot(baseDir), storePath, commands).err.None?
    ensures var r := Profile.LinkOutcome(v, ProfileRoot(baseDir), storePath, commands).tree;
      storePath + [c] in r && r[storePath + [c]] == v[storePath + [c]]
      && Symlinks.ProfileBin(baseDir) + [c] in r && r[Symlinks.ProfileBin(baseDir) + [c]] == Link(storePath + [c])
  {
    var root := ProfileRoot(baseDir);
    ProfileKeepsStore(v, baseDir, storePath, commands, c);
    Profile.LinkPlacesLinks(v, root, storePath, commands);
    assert Profile.BinDir(root) == Symlinks.ProfileBin(baseDir);
  }

  /** A successful staging went through every part, the profile links last. */
  lemma StageFilesParts(t: Tree, baseDir: Path, name: string, cc: ContainerConfig, def: ContainerDefinition, compiled: Option<Content>)
    requires StageFiles(t, baseDir, name, cc, def, compiled).err.None?
    ensures var p := Prepared(t, baseDir, name, cc, compiled);
      var storePath := StorePath(baseDir, name, cc);
      var placed := PlaceCommands(p.tree, Symlinks.ContainerExecPath(baseDir), storePath, def.commands);
      var linked := Profile.LinkOutcome(placed.tree, ProfileRoot(baseDir), storePath, def.commands);
      p.err.None? && placed.err.None? && linked.err.None?
      && StageFiles(t, baseDir, name, cc, def, compiled).tree == linked.tree
  {
  }

  /** A successful step has placed the links of every command of the container. */
  lemma SetupPlacesLinks(t: Tree, s: State, baseDir: Path, name: string, cc: ContainerConfig, m: ContainerManifest, compiled: Option<Content>)
    requires SetupStep(t, s, baseDir, name, cc, m, compiled).err.None?
    ensures name in m.containers
    ensures var r := SetupStep(t, s, baseDir, name, cc, m, compiled).tree;
      var storePath := StorePath(baseDir, name, cc);
      forall c | c in m.containers[name].commands ::
        storePath + [c] in r && r[storePath + [c]] == Link(Symlinks.ContainerExecPath(baseDir))
        && Symlinks.ProfileBin(baseDir) + [c] in r && r[Symlinks.ProfileBin(baseDir) + [c]] == Link(storePath + [c])
  {
    StageFilesLinks(t, baseDir, name, cc, m.containers[name], compiled);
  }

  /**
   * The runtime part creates nothing: its only changes are the removal of
   * a stale container and the pull of the configured image, no image is
   * lost, and when it succeeds the image is present.
   */
  lemma ReconcileRuntime(s: State, name: string, cc: ContainerConfig)
    ensures var r := Reconcile(s, name, cc);
      (forall c | c in Mutations(r.calls) :: c == Prune.RemoveCmd(FullName(name)) || c == PullCmd(ContainerExec.ImageRef(cc)))
      && s.images <= r.state.images
      && (r.err.None? ==> ContainerExec.ImageRef(cc) in r.state.images)
  {
    var v := VersionEffect(s, name, cc);
    VersionBounds(s, name, cc);
    ImageEnsured(v.state, ContainerExec.ImageRef(cc));
    MutationsAppend(v.calls, ImageEffect(v.state, ContainerExec.ImageRef(cc)).calls);
  }

  /** ensureContainerVersion changes at most the removal of the container and keeps the images. */
  lemma VersionBounds(s: State, name: string, cc: ContainerConfig)
    ensures var v := VersionEffect(s, name, cc);
      (forall c | c in Mutations(v.calls) :: c == Prune.RemoveCmd(FullName(name)))
      && v.state.images == s.images
  {
    var full := FullName(name);
    VersionQueries(full);
    if Reports(s, true, full) && ImageOf(s, full).Ok? && ImageOf(s, full).value != ContainerExec.ImageRef(cc) {
      RmEffect(s, full);
    }
  }

  /** The same for a whole step: a failure before the runtime part leaves the runtime alone. */
  lemma SetupRuntime(t: Tree, s: State, baseDir: Path, name: string, cc: ContainerConfig, m: ContainerManifest, compiled: Option<Content>)
    ensures var o := SetupStep(t, s, baseDir, name, cc, m, compiled);
      (forall c | c in Mutations(o.calls) :: c == Prune.RemoveCmd(FullName(name)) || c == PullCmd(ContainerExec.ImageRef(cc)))
      && s.images <= o.state.images
      && (o.err.None? ==> ContainerExec.ImageRef(cc) in o.state.images)
  {
    ReconcileRuntime(s, name, cc);
  }

  // ----- the container loop of switch -----

  /** The loop over the configured containers in visiting order, stopping at the first failure. */
  function SetupAll(t: Tree, s: State, baseDir: Path, cfg: Config, m: ContainerManifest, names: seq<string>, compiled: Option<Content>): SetupOutcome
    requires forall i | 0 <= i < |names| :: names[i] in cfg.containers
    decreases |names|
  {
    if names == [] then SetupOutcome(t, s, [], None)
    else
      var o := SetupStep(t, s, baseDir, names[0], cfg.containers[names[0]], m, compiled);
      if o.err.Some? then o
      else
        var rest := SetupAll(o.tree, o.state, baseDir, cfg, m, names[1..], compiled);
        SetupOutcome(rest.tree, rest.state, o.calls + rest.calls, rest.err)
  }

  /** `compiled` is what building the executor would produce, and `order` the visiting order of the configured containers. */
  method SetupContainers(fs: FileSystem, d: Docker, baseDir: Path, cfg: Config, m: ContainerManifest, order: seq<string>, compiled: Option<Content>)
    returns (err: Option<SetupError>)
    requires ContainerExec.VisitOrder(cfg, order)
    modifies fs, d
    ensures forall i | 0 <= i < |order| :: order[i] in cfg.containers
    ensures var o := SetupAll(old(fs.tree), old(d.state), baseDir, cfg, m, order, compiled);
      fs.tree == o.tree && d.state == o.state && d.log == old(d.log) + o.calls && err == o.err
  {
    assert forall i | 0 <= i < |order| :: order[i] in cfg.containers by {
      forall i | 0 <= i < |order| ensures order[i] in cfg.containers {
        assert order[i] in order;
      }
    }
    var prof := new Profile.Profile(ProfileRoot(baseDir));
    err := SetupEach(fs, d, prof, baseDir, cfg, m, order, compiled);
  }

  /** The loop of setupContainers over the visiting order, stopping at the first failure. */
  method SetupEach(fs: FileSystem, d: Docker, prof: Profile.Profile, baseDir: Path, cfg: Config, m: ContainerManifest,
                   order: seq<string>, compiled: Option<Content>) returns (err: Option<SetupError>)
    requires prof.root == ProfileRoot(baseDir)
    requires forall i | 0 <= i < |order| :: order[i] in cfg.containers
    modifies fs, d
    ensures var o := SetupAll(old(fs.tree), old(d.state), baseDir, cfg, m, order, compiled);
      fs.tree == o.tree && d.state == o.state && d.log == old(d.log) + o.calls && err == o.err
  {
    ghost var done: seq<Cmd> := [];
    ghost var whole := SetupAll(fs.tree, d.state, baseDir, cfg, m, order, compiled);
    var i := 0;
    while i < |order|
      invariant 0 <= i <= |order|
      invariant d.log == old(d.log) + done
      invariant var rest := SetupAll(fs.tree, d.state, baseDir, cfg, m, order[i..], compiled);
        whole == SetupOutcome(rest.tree, rest.state, done + rest.calls, rest.err)
      decreases |order| - i
    {
      ghost var log0 := d.log;
      err := SetupTurn(fs, d, prof, baseDir, cfg, m, order, i, compiled);
      if err.Some? {
        LogAssoc(old(d.log), done, d.log[|log0|..]);
        return err;
      }
      LogAssoc(done, d.log[|log0|..], SetupAll(fs.tree, d.state, baseDir, cfg, m, order[i + 1..], compiled).calls);
      LogAssoc(old(d.log), done, d.log[|log0|..]);
      done := done + d.log[|log0|..];
      i := i + 1;
    }
    return None;
  }

  /**
   * One turn of the loop: what is left of the loop from `i` on is either
   * what this turn did, when it failed, or this turn's invocations
   * followed by the loop from `i + 1` on.
   */
  method SetupTurn(fs: FileSystem, d: Docker, prof: Profile.Profile, baseDir: Path, cfg: Config, m: ContainerManifest,
                   order: seq<string>, i: nat, compiled: Option<Content>) returns (err: Option<SetupError>)
    requires prof.root == ProfileRoot(baseDir)
    requires i < |order| && forall j | 0 <= j < |order| :: order[j] in cfg.containers
    modifies fs, d
    ensures |old(d.log)| <= |d.log| && d.log[..|old(d.log)|] == old(d.log)
    ensures var rest := SetupAll(old(fs.tree), old(d.state), baseDir, cfg, m, order[i..], compiled);
      var next := SetupAll(fs.tree, d.state, baseDir, cfg, m, order[i + 1..], compiled);
      var mine := d.log[|old(d.log)|..];
      if err.Some? then rest == SetupOutcome(fs.tree, d.state, mine, err)
      else rest == SetupOutcome(next.tree, next.state, mine + next.calls, next.err)
  {
    SetupAllFirst(fs.tree, d.state, baseDir, cfg, m, order, i, compiled);
    err := SetupContainer(fs, d, prof, baseDir, order[i], cfg.containers[order[i]], m, compiled);
    assert d.log[|old(d.log)|..] == SetupStep(old(fs.tree), old(d.state), baseDir, order[i], cfg.containers[order[i]], m, compiled).calls;
  }

  /** The loop from position `i` on is the step at `i`, then the loop from `i + 1` on unless that step failed. */
  lemma SetupAllFirst(t: Tree, s: State, baseDir: Path, cfg: Config, m: ContainerManifest, names: seq<string>, i: nat, compiled: Option<Content>)
    requires i < |names| && forall j | 0 <= j < |names| :: names[j] in cfg.containers
    ensures var o := SetupStep(t, s, baseDir, names[i], cfg.containers[names[i]], m, compiled);
      var rest := SetupAll(o.tree, o.state, baseDir, cfg, m, names[i + 1..], compiled);
      SetupAll(t, s, baseDir, cfg, m, names[i..], compiled)
        == if o.err.Some? then o else SetupOutcome(rest.tree, rest.state, o.calls + rest.calls, rest.err)
  {
    assert names[i..][0] == names[i] && names[i..][1..] == names[i + 1..];
  }

  /** Once the loop has gone through, every configured image is present locally. */
  lemma {:induction false} SetupAllImages(t: Tree, s: State, baseDir: Path, cfg: Config, m: ContainerManifest, names: seq<string>, compiled: Option<Content>)
    requires forall i | 0 <= i < |names| :: names[i] in cfg.containers
    ensures var o := SetupAll(t, s, baseDir, cfg, m, names, compiled);
      s.images <= o.state.images
      && (o.err.None? ==> forall i | 0 <= i < |names| :: ContainerExec.ImageRef(cfg.containers[names[i]]) in o.state.images)
    decreases |names|
  {
    if names != [] {
      var o := SetupStep(t, s, baseDir, names[0], cfg.containers[names[0]], m, compiled);
      SetupRuntime(t, s, baseDir, names[0], cfg.containers[names[0]], m, compiled);
      if o.err.None? {
        SetupAllImages(o.tree, o.state, baseDir, cfg, m, names[1..], compiled);
        var rest := SetupAll(o.tree, o.state, baseDir, cfg, m, names[1..], compiled);
        forall i | 1 <= i < |names| ensures ContainerExec.ImageRef(cfg.containers[names[i]]) in rest.state.images || rest.err.Some? {
          assert names[i] == names[1..][i - 1];
        }
      }
    }
  }
}

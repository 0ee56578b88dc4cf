/**
 * The container executor (cmd/container-exec/main.go): the binary every
 * container command links to. It finds the configured container that
 * provides the command, makes that container run with the configured
 * image, recreating it when the image changed, and executes the command
 * in it.
 */
module ContainerExec {
  import opened Wrappers
  import opened Strings
  import opened Engine
  import opened DockerClient
  import opened Config
  import opened Containers

  /** The container providing a command: its name, its configuration and its definition. */
  datatype Provider = Provider(name: string, config: ContainerConfig, def: ContainerDefinition)

  /** A container named `name` is configured, defined, and lists `command`. */
  predicate Provides(cfg: Config, m: ContainerManifest, name: string, command: string) {
    name in cfg.containers && name in m.containers && command in m.containers[name].commands
  }

  /**
   * `order` is the order in which ranging over the configured containers
   * visits them: each key once.
   */
  ghost predicate VisitOrder(cfg: Config, order: seq<string>) {
    (forall k :: k in cfg.containers <==> k in order)
    && (forall i, j | 0 <= i < j < |order| :: order[i] != order[j])
  }

  /**
   * findContainerForCommand: the first configured container, in visiting
   * order, that the manifest defines with the command among its commands.
   */
  method FindContainerForCommand(commandName: string, cfg: Config, m: ContainerManifest, order: seq<string>)
    returns (r: Option<Provider>)
    requires VisitOrder(cfg, order)
    ensures r.Some? ==> (Provides(cfg, m, r.value.name, commandName)
      && r.value.config == cfg.containers[r.value.name] && r.value.def == m.containers[r.value.name])
    ensures r.None? <==> forall name :: !Provides(cfg, m, name, commandName)
    ensures r.Some? ==> exists i | 0 <= i < |order| :: (order[i] == r.value.name
      && forall j | 0 <= j < i :: !Provides(cfg, m, order[j], commandName))
  {
    var i := 0;
    while i < |order|
      invariant 0 <= i <= |order|
      invariant forall j | 0 <= j < i :: !Provides(cfg, m, order[j], commandName)
      decreases |order| - i
    {
      var containerName := order[i];
      var containerConfig := cfg.containers[containerName];
      if containerName in m.containers {
        var containerDef := m.containers[containerName];
        var k := 0;
        while k < |containerDef.commands|
          invariant 0 <= k <= |containerDef.commands|
          invariant commandName !in containerDef.commands[..k]
          decreases |containerDef.commands| - k
        {
          if containerDef.commands[k] == commandName {
            return Some(Provider(containerName, containerConfig, containerDef));
          }
          assert containerDef.commands[..k + 1] == containerDef.commands[..k] + [containerDef.commands[k]];
          k := k + 1;
        }
        assert containerDef.commands[..k] == containerDef.commands;
      }
      i := i + 1;
    }
    forall name ensures !Provides(cfg, m, name, commandName) {
      if name in cfg.containers {
        var j :| 0 <= j < |order| && order[j] == name;
      }
    }
    return None;
  }

  /** The image reference of a configured container: `image:version`. */
  function ImageRef(cc: ContainerConfig): (r: string)
    ensures |r| == |cc.image| + 1 + |cc.version|
    ensures r[..|cc.image|] == cc.image && r[|cc.image|] == ':' && r[|cc.image| + 1..] == cc.version
  {
    cc.image + ":" + cc.version
  }

  /** buildDockerExecArgs: always `-i`, `-w` when a working directory is set, then the container, the command and its arguments. */
  function ExecArgsMain(containerName: string, def: ContainerDefinition, command: string, args: seq<string>): seq<string> {
    ["exec", "-i"] + (WorkDirFlags("-w", def.workDir) + ([containerName, command] + args))
  }

  /** docker's parser finds the container, and the command with its arguments ends the list. */
  lemma ExecArgsMainShape(containerName: string, def: ContainerDefinition, command: string, args: seq<string>)
    requires !IsFlag(containerName)
    ensures var a := ExecArgsMain(containerName, def, command, args);
      IsQuery(a) && a[..2] == ["exec", "-i"] && ExecTarget(a[1..]) == Some(containerName)
      && a[|a| - |args| - 2..] == [containerName, command] + args
      && (def.workDir != "" <==> a[2] == "-w")
  {
    var a := ExecArgsMain(containerName, def, command, args);
    var w := WorkDirFlags("-w", def.workDir) + ([containerName, command] + args);
    if def.workDir != "" {
      assert w[0] == "-w" && IsFlag(w[0]) && w[2..] == [containerName, command] + args;
    }
    assert ExecTarget(w) == Some(containerName);
    assert a[1..] == ["-i"] + w;
    assert a[2..] == w;
  }

  /**
   * ensureContainerRunning of the executor: create when the full listing
   * does not show the name; otherwise read the container's image, and on
   * a change remove the container and create it anew; with the same image
   * start it when the running listing does not show it.
   */
  function EnsureCurrent(s: State, name: string, image: string, def: ContainerDefinition): Effect {
    var create := KeepAliveArgs(name, image, def);
    if !Reports(s, true, name) then
      var r := Interpret(s, create);
      Effect(r.state, [PsNames(true), create], r.ok)
    else
      match ImageOf(s, name)
      case Err(_) => Effect(s, [PsNames(true), InspectImage(name)], false)
      case Ok(current) =>
        var rest := if current != image then Recreate(s, name, image, def) else StartIfStopped(s, name);
        Effect(rest.state, [PsNames(true), InspectImage(name)] + rest.calls, rest.ok)
  }

  /** On an image change: remove the container, then, if that worked, create it anew. */
  function Recreate(s: State, name: string, image: string, def: ContainerDefinition): Effect {
    var rm := ["rm", "-f", name];
    var r1 := Interpret(s, rm);
    if !r1.ok then Effect(s, [rm], false)
    else
      var create := KeepAliveArgs(name, image, def);
      var r2 := Interpret(r1.state, create);
      Effect(r2.state, [rm, create], r2.ok)
  }

  /** With the right image: start the container unless the running listing shows it. */
  function StartIfStopped(s: State, name: string): Effect {
    if Reports(s, false, name) then Effect(s, [PsNames(false)], true)
    else
      var r := Interpret(s, ["start", name]);
      Effect(r.state, [PsNames(false), ["start", name]], r.ok)
  }

  /** EnsureCurrent once the container is known and its image read. */
  lemma EnsureCurrentExisting(s: State, name: string, image: string, def: ContainerDefinition, current: string)
    requires Reports(s, true, name) && ImageOf(s, name) == Ok(current)
    ensures var rest := if current != image then Recreate(s, name, image, def) else StartIfStopped(s, name);
      EnsureCurrent(s, name, image, def) == Effect(rest.state, [PsNames(true), InspectImage(name)] + rest.calls, rest.ok)
  {
  }

  /** EnsureCurrent when the full listing does not show the container. */
  lemma EnsureCurrentAbsent(s: State, name: string, image: string, def: ContainerDefinition)
    requires !Reports(s, true, name)
    ensures var r := Interpret(s, KeepAliveArgs(name, image, def));
      EnsureCurrent(s, name, image, def) == Effect(r.state, [PsNames(true), KeepAliveArgs(name, image, def)], r.ok)
  {
  }

  /** EnsureCurrent when the container's image cannot be read. */
  lemma EnsureCurrentUnreadable(s: State, name: string, image: string, def: ContainerDefinition)
    requires Reports(s, true, name) && ImageOf(s, name).Err?
    ensures EnsureCurrent(s, name, image, def) == Effect(s, [PsNames(true), InspectImage(name)], false)
  {
  }

  method EnsureContainerRunning(d: Docker, name: string, image: string, def: ContainerDefinition) returns (err: Option<CmdError>)
    modifies d
    ensures var e := EnsureCurrent(old(d.state), name, image, def);
      d.state == e.state && d.log == old(d.log) + e.calls && (err.None? <==> e.ok)
  {
    ghost var s0, log0 := d.state, d.log;
    var exists_ := Exists(d, name);
    if !exists_ {
      err := CreateKeepAlive(d, def, name, image);
      EnsureCurrentAbsent(s0, name, image, def);
      assert d.log == log0 + [PsNames(true), KeepAliveArgs(name, image, def)];
      return;
    }
    var currentImage := GetContainerImage(d, name);
    assert d.log == log0 + [PsNames(true), InspectImage(name)];
    if currentImage.Err? {
      EnsureCurrentUnreadable(s0, name, image, def);
      return Some(currentImage.error);
    }
    ghost var log1 := d.log;
    err := UpdateExisting(d, name, image, def, currentImage.value);
    ghost var e := if currentImage.value != image then Recreate(s0, name, image, def) else StartIfStopped(s0, name);
    EnsureCurrentExisting(s0, name, image, def, currentImage.value);
    LogAssoc(log0, [PsNames(true), InspectImage(name)], e.calls);
  }

  /** The part of ensureContainerRunning after the image is read: recreate on a change, else start if stopped. */
  method UpdateExisting(d: Docker, name: string, image: string, def: ContainerDefinition, current: string) returns (err: Option<CmdError>)
    modifies d
    ensures var e := if current != image then Recreate(old(d.state), name, image, def) else StartIfStopped(old(d.state), name);
      d.state == e.state && d.log == old(d.log) + e.calls && (err.None? <==> e.ok)
  {
    if current != image {
      err := RecreateContainer(d, name, image, def);
    } else {
      err := StartContainerIfStopped(d, name);
    }
  }

  /** Remove, and create only when the remove worked. */
  method RecreateContainer(d: Docker, name: string, image: string, def: ContainerDefinition) returns (err: Option<CmdError>)
    modifies d
    ensures var e := Recreate(old(d.state), name, image, def);
      d.state == e.state && d.log == old(d.log) + e.calls && (err.None? <==> e.ok)
  {
    err := Issue(d, ["rm", "-f", name]);
    if err.Some? {
      return;
    }
    err := CreateKeepAlive(d, def, name, image);
  }

  /** Start unless the running listing shows the container. */
  method StartContainerIfStopped(d: Docker, name: string) returns (err: Option<CmdError>)
    modifies d
    ensures var e := StartIfStopped(old(d.state), name);
      d.state == e.state && d.log == old(d.log) + e.calls && (err.None? <==> e.ok)
  {
    var running := IsRunning(d, name);
    if !running {
      err := Issue(d, ["start", name]);
    } else {
      err := None;
    }
  }

  lemma MutationsOf(calls: seq<Cmd>, k: nat)
    requires k <= |calls|
    requires forall i | 0 <= i < k :: IsQuery(calls[i])
    ensures Mutations(calls) == Mutations(calls[k..])
    decreases k
  {
    if k > 0 {
      assert calls[1..][k - 1..] == calls[k..];
      MutationsOf(calls[1..], k - 1);
    }
  }

  lemma MutationsOfPair(a: Cmd, b: Cmd)
    requires !IsQuery(a) && !IsQuery(b)
    ensures Mutations([a, b]) == [a, b]
  {
    assert [a, b][1..] == [b];
  }

  lemma NotQueries(name: string, image: string, def: ContainerDefinition)
    ensures !IsQuery(KeepAliveArgs(name, image, def)) && !IsQuery(["rm", "-f", name]) && !IsQuery(["start", name])
    ensures IsQuery(PsNames(true)) && IsQuery(PsNames(false)) && IsQuery(InspectImage(name))
  {
    assert KeepAliveArgs(name, image, def)[0] == "run";
  }

  /** A container the full listing does not show gets exactly one create, and no remove or start. */
  lemma AbsentCreatesOnce(s: State, name: string, image: string, def: ContainerDefinition)
    requires !Reports(s, true, name)
    ensures var e := EnsureCurrent(s, name, image, def);
      Mutations(e.calls) == [KeepAliveArgs(name, image, def)]
  {
    var create := KeepAliveArgs(name, image, def);
    NotQueries(name, image, def);
    MutationsOf([PsNames(true), create], 1);
    assert [PsNames(true), create][1..] == [create];
  }

  /** ... and on a reachable daemon, with the image at hand, that create gives a running container of the image. */
  lemma AbsentCreated(s: State, name: string, image: string, def: ContainerDefinition)
    requires !s.down && !Reports(s, true, name)
    requires (image in s.images || image in s.registry) && !IsFlag(image)
    ensures var e := EnsureCurrent(s, name, image, def);
      e.ok && Find(e.state.containers, name) == Some(Instance(name, image, true))
  {
    if Has(s.containers, name) {
      ReportsExisting(s, name);
    }
    KeepAliveRun(s, name, image, def);
  }

  /**
   * A container whose image differs gets one remove followed by one
   * create, never a start; when the remove fails, no create follows and
   * nothing changed.
   */
  lemma ChangedImageRecreates(s: State, name: string, image: string, def: ContainerDefinition, current: string)
    requires Reports(s, true, name) && ImageOf(s, name) == Ok(current) && current != image
    ensures var e := EnsureCurrent(s, name, image, def);
      var rm := ["rm", "-f", name];
      (Interpret(s, rm).ok ==> Mutations(e.calls) == [rm, KeepAliveArgs(name, image, def)])
      && (!Interpret(s, rm).ok ==> Mutations(e.calls) == [rm] && e.state == s && !e.ok)
  {
    ExistingMutations(s, name, image, def, current);
    RecreateMutations(s, name, image, def);
  }

  /** Once the image is read, the queries before the tail change nothing and mutate nothing. */
  lemma ExistingMutations(s: State, name: string, image: string, def: ContainerDefinition, current: string)
    requires Reports(s, true, name) && ImageOf(s, name) == Ok(current)
    ensures var rest := if current != image then Recreate(s, name, image, def) else StartIfStopped(s, name);
      var e := EnsureCurrent(s, name, image, def);
      Mutations(e.calls) == Mutations(rest.calls) && e.state == rest.state && e.ok == rest.ok
  {
    EnsureCurrentExisting(s, name, image, def, current);
    var rest := if current != image then Recreate(s, name, image, def) else StartIfStopped(s, name);
    QueriesThen(name, rest.calls);
  }

  lemma QueriesThen(name: string, calls: seq<Cmd>)
    ensures Mutations([PsNames(true), InspectImage(name)] + calls) == Mutations(calls)
  {
    var all := [PsNames(true), InspectImage(name)] + calls;
    assert IsQuery(PsNames(true)) && IsQuery(InspectImage(name));
    MutationsOf(all, 2);
    assert all[2..] == calls;
  }

  /** Recreate removes, and creates only when the remove worked; a failed remove changes nothing. */
  lemma RecreateMutations(s: State, name: string, image: string, def: ContainerDefinition)
    ensures var e := Recreate(s, name, image, def);
      var rm := ["rm", "-f", name];
      (Interpret(s, rm).ok ==> Mutations(e.calls) == [rm, KeepAliveArgs(name, image, def)])
      && (!Interpret(s, rm).ok ==> Mutations(e.calls) == [rm] && e.state == s && !e.ok)
  {
    var rm := ["rm", "-f", name];
    NotQueries(name, image, def);
    if Interpret(s, rm).ok {
      MutationsOfPair(rm, KeepAliveArgs(name, image, def));
    } else {
      assert [rm][1..] == [];
    }
  }

  /** `docker rm -f` of a container the runtime has succeeds and removes it. */
  lemma RemoveEffect(s: State, name: string)
    requires !s.down && Has(s.containers, name)
    ensures Interpret(s, ["rm", "-f", name]) == Response(s.(containers := Without(s.containers, name)), true, "")
  {
    var cmd := ["rm", "-f", name];
    assert !IsQuery(cmd) && cmd[0] != "start" && cmd[0] != "stop";
    assert Interpret(s, cmd) == Lifecycle(s, "rm", name);
  }

  /**
   * On a reachable daemon, a container created with another image is
   * replaced: the executor ends with a running container of that name and
   * the configured image.
   */
  lemma ChangedImageReplaced(s: State, name: string, image: string, def: ContainerDefinition, old_: Instance)
    requires !s.down && Find(s.containers, name) == Some(old_) && old_.image != image
    requires |old_.image| > 0 ==> !IsSpace(old_.image[0]) && !IsSpace(old_.image[|old_.image| - 1])
    requires (image in s.images || image in s.registry) && !IsFlag(image)
    ensures var e := EnsureCurrent(s, name, image, def);
      e.ok && Find(e.state.containers, name) == Some(Instance(name, image, true))
  {
    ReportsExisting(s, name);
    ImageOfExisting(s, name, old_);
    RemoveEffect(s, name);
    var s1 := s.(containers := Without(s.containers, name));
    FindWithout(s.containers, name, name);
    KeepAliveRun(s1, name, image, def);
  }

  lemma StartIfStoppedMutations(s: State, name: string)
    ensures var e := StartIfStopped(s, name);
      Mutations(e.calls) == (if Reports(s, false, name) then [] else [["start", name]])
      && (Reports(s, false, name) ==> e.state == s && e.ok)
  {
    assert IsQuery(PsNames(false)) && !IsQuery(["start", name]);
    if !Reports(s, false, name) {
      assert [PsNames(false), ["start", name]][1..] == [["start", name]];
    }
  }

  /** With the configured image, a stopped container gets one start and a running one nothing. */
  lemma SameImageStarts(s: State, name: string, image: string, def: ContainerDefinition)
    requires Reports(s, true, name) && ImageOf(s, name) == Ok(image)
    ensures var e := EnsureCurrent(s, name, image, def);
      (Reports(s, false, name) ==> Mutations(e.calls) == [] && e.state == s && e.ok)
      && (!Reports(s, false, name) ==> Mutations(e.calls) == [["start", name]])
  {
    ExistingMutations(s, name, image, def, image);
    StartIfStoppedMutations(s, name);
  }

  /** Failing to read the image ends the reconciliation with an error and no change. */
  lemma InspectFailureChangesNothing(s: State, name: string, image: string, def: ContainerDefinition)
    requires Reports(s, true, name) && ImageOf(s, name).Err?
    ensures var e := EnsureCurrent(s, name, image, def);
      !e.ok && e.state == s && Mutations(e.calls) == []
  {
    NotQueries(name, image, def);
    var calls := [PsNames(true), InspectImage(name)];
    MutationsOf(calls, 2);
    assert calls[2..] == [];
  }

  /**
   * A container absent from the runtime whose name is contained in another
   * container's name reads as present; reading its image then fails, so it
   * is never created.
   */
  lemma AbsentShadowed()
    ensures var s := State([Instance("yourpm-golang", "golang:1.22", true)], {"golang:1.21"}, {}, false);
      var e := EnsureCurrent(s, "yourpm-go", "golang:1.21", ContainerDefinition("", ["go"], "", []));
      !Has(s.containers, "yourpm-go") && !e.ok && e.state == s
  {
    ReportsBySubstring();
    var s := State([Instance("yourpm-golang", "golang:1.22", true)], {"golang:1.21"}, {}, false);
    assert Find(s.containers, "yourpm-go") == None by {
      assert s.containers[0].name != "yourpm-go";
    }
    var cmd := InspectImage("yourpm-go");
    assert IsQuery(cmd) && cmd[0] == "inspect" && |cmd| == 4 && cmd[..3] == ["inspect", "--format", ImageFormat];
    assert !Interpret(s, cmd).ok;
  }

  /** Why the executor stopped short of running the command. */
  datatype ExecError = NotProvided(command: string) | EnsureFailed | ExecFailed

  /**
   * The executor's run for `commandName` with arguments `args`, given the
   * configuration, the manifest and the order the configuration's
   * containers are visited in.
   */
  function Dispatch(s: State, commandName: string, args: seq<string>, p: Option<Provider>): (Effect, Option<ExecError>) {
    match p
    case None => (Effect(s, [], false), Some(NotProvided(commandName)))
    case Some(pr) =>
      var full := FullName(pr.name);
      var e := EnsureCurrent(s, full, ImageRef(pr.config), pr.def);
      if !e.ok then (e, Some(EnsureFailed))
      else
        var cmd := ExecArgsMain(full, pr.def, commandName, args);
        var r := Interpret(e.state, cmd);
        (Effect(r.state, e.calls + [cmd], r.ok), if r.ok then None else Some(ExecFailed))
  }

  method RunCommand(d: Docker, commandName: string, args: seq<string>, cfg: Config, m: ContainerManifest, order: seq<string>)
    returns (p: Option<Provider>, err: Option<ExecError>)
    requires VisitOrder(cfg, order)
    modifies d
    ensures p.Some? ==> Provides(cfg, m, p.value.name, commandName)
    ensures p.None? <==> forall name :: !Provides(cfg, m, name, commandName)
    ensures var (e, x) := Dispatch(old(d.state), commandName, args, p);
      d.state == e.state && d.log == old(d.log) + e.calls && err == x
  {
    p := FindContainerForCommand(commandName, cfg, m, order);
    if p.None? {
      return p, Some(NotProvided(commandName));
    }
    var pr := p.value;
    var image := ImageRef(pr.config);
    var containerFullName := FullName(pr.name);
    var e := EnsureContainerRunning(d, containerFullName, image, pr.def);
    if e.Some? {
      return p, Some(EnsureFailed);
    }
    var dockerArgs := ExecArgsMain(containerFullName, pr.def, commandName, args);
    var ok, _ := d.Invoke(dockerArgs);
    err := if ok then None else Some(ExecFailed);
  }

  /**
   * The executor runs the command in `yourpm-<name>` of the container that
   * provides it, after reconciling that container with `image:version`
   * from the configuration, and only if the reconciliation succeeded.
   */
  lemma DispatchRunsInProvider(s: State, commandName: string, args: seq<string>, pr: Provider)
    ensures var (e, x) := Dispatch(s, commandName, args, Some(pr));
      var full := FullName(pr.name);
      var e0 := EnsureCurrent(s, full, ImageRef(pr.config), pr.def);
      (!e0.ok ==> e == e0 && x.Some? && x.value.EnsureFailed?)
      && (e0.ok ==> (e.calls == e0.calls + [ExecArgsMain(full, pr.def, commandName, args)]
                     && ExecTarget(e.calls[|e.calls| - 1][1..]) == Some(full)
                     && e.state == e0.state
                     && (x.None? <==> !e0.state.down && Find(e0.state.containers, full).Some? && Find(e0.state.containers, full).value.running)))
  {
    var full := FullName(pr.name);
    assert full[0] == 'y' && !IsFlag(full);
    ExecArgsMainShape(full, pr.def, commandName, args);
  }
}

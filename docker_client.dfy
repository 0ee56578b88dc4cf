/**
 * The docker client of pkg/docker/client.go: each method builds an
 * argument list and issues one invocation; `parseContainerList` reads the
 * `ps` table back.
 */
module DockerClient {
  import opened Wrappers
  import opened Strings
  import opened Engine

  datatype Container = Container(name: string, status: string, image: string)

  datatype CreateOptions = CreateOptions(volumes: seq<string>, workDir: string, entrypoint: string, command: seq<string>)

  datatype ExecOptions = ExecOptions(interactive: bool, tty: bool, workDir: string, command: seq<string>)

  /** The invocation that failed. */
  datatype CmdError = CmdFailed(cmd: Cmd)

  function PsNames(all: bool): Cmd {
    if all then ["ps", "-a", "--format", NamesFormat] else ["ps", "--format", NamesFormat]
  }

  function InspectImage(name: string): Cmd {
    ["inspect", "--format", ImageFormat, name]
  }

  /** What Exists (all) or IsRunning reports: the name occurs in the name listing, and false when ps fails. */
  predicate Reports(s: State, all: bool, name: string) {
    var r := Interpret(s, PsNames(all));
    r.ok && Contains(r.out, name)
  }

  /** What GetContainerImage returns: the trimmed inspect output. */
  function ImageOf(s: State, name: string): Result<string, CmdError> {
    var r := Interpret(s, InspectImage(name));
    if r.ok then Ok(TrimSpace(r.out)) else Err(CmdFailed(InspectImage(name)))
  }

  /** A container the runtime has is always reported, and a stopped one is not reported by IsRunning unless another name contains it. */
  lemma ReportsExisting(s: State, name: string)
    requires !s.down && Has(s.containers, name)
    ensures Reports(s, true, name)
  {
    var i :| 0 <= i < |s.containers| && s.containers[i].name == name;
    ListingShowsNames(Names(s.containers), i);
  }

  /** A reachable daemon answers the name query with one line per (running) container. */
  lemma PsNamesAnswer(s: State, all: bool)
    requires !s.down
    ensures Interpret(s, PsNames(all)) == Response(s, true, Listing(Names(if all then s.containers else Running(s.containers))))
  {
    var cmd := PsNames(all);
    assert IsQuery(cmd) && cmd[0] == "ps";
    assert ParsePs(cmd) == Some(PsQuery(all, None, NamesFormat));
    assert Interpret(s, cmd) == Query(s, cmd) == Ps(s, PsQuery(all, None, NamesFormat));
  }

  /** Whatever is running, a down daemon makes both queries false. */
  lemma ReportsNothingWhenDown(s: State, all: bool, name: string)
    requires s.down
    ensures !Reports(s, all, name)
  {
  }

  /** A name contained in another container's name reads as present although no container has it. */
  lemma ReportsBySubstring()
    ensures var s := State([Instance("yourpm-golang", "golang:1.22", true)], {}, {}, false);
      !Has(s.containers, "yourpm-go") && Reports(s, true, "yourpm-go") && Reports(s, false, "yourpm-go")
  {
    var s := State([Instance("yourpm-golang", "golang:1.22", true)], {}, {}, false);
    assert Listing(Names(s.containers)) == "yourpm-golang\n";
    assert Listing(Names(Running(s.containers))) == "yourpm-golang\n";
    assert OccursAt("yourpm-golang\n", "yourpm-go", 0);
  }

  /** Inspect gives back the image a container was created with, when it has no surrounding white space. */
  lemma ImageOfExisting(s: State, name: string, c: Instance)
    requires !s.down && Find(s.containers, name) == Some(c)
    requires |c.image| > 0 ==> !IsSpace(c.image[0]) && !IsSpace(c.image[|c.image| - 1])
    ensures ImageOf(s, name) == Ok(c.image)
  {
    TrimSpaceNewline(c.image);
  }

  lemma TrimSpaceNewline(x: string)
    requires |x| > 0 ==> !IsSpace(x[0]) && !IsSpace(x[|x| - 1])
    ensures TrimSpace(x + "\n") == x
  {
    var y := x + "\n";
    assert IsSpace(y[|y| - 1]) && y[..|y| - 1] == x;
    if |x| == 0 {
      assert TrimLeftSpace(y) == TrimLeftSpace(y[1..]);
    } else {
      assert y[0] == x[0];
      assert TrimLeftSpace(y) == y;
      assert TrimRightSpace(y) == TrimRightSpace(x);
    }
  }

  // ----- argument lists -----

  /** `-v v` for each volume, in order. */
  function VolumeFlags(volumes: seq<string>): (r: seq<string>)
    ensures |r| == 2 * |volumes|
  {
    if volumes == [] then [] else ["-v", volumes[0]] + VolumeFlags(volumes[1..])
  }

  /** The flags keep the volumes' order, each after its own `-v`. */
  lemma {:induction false} VolumeFlagsOrder(volumes: seq<string>)
    ensures forall i | 0 <= i < |volumes| :: VolumeFlags(volumes)[2 * i] == "-v" && VolumeFlags(volumes)[2 * i + 1] == volumes[i]
    decreases |volumes|
  {
    if volumes != [] {
      VolumeFlagsOrder(volumes[1..]);
      var r := VolumeFlags(volumes);
      forall i | 1 <= i < |volumes|
        ensures r[2 * i] == "-v" && r[2 * i + 1] == volumes[i]
      {
        assert r[2 * i] == VolumeFlags(volumes[1..])[2 * (i - 1)];
        assert r[2 * i + 1] == VolumeFlags(volumes[1..])[2 * (i - 1) + 1];
      }
    }
  }

  /** The loop that appends `-v v` per volume. */
  method AppendVolumes(args: seq<string>, volumes: seq<string>) returns (r: seq<string>)
    ensures r == args + VolumeFlags(volumes)
  {
    r := args;
    var i := 0;
    while i < |volumes|
      invariant 0 <= i <= |volumes|
      invariant r + VolumeFlags(volumes[i..]) == args + VolumeFlags(volumes)
      decreases |volumes| - i
    {
      assert volumes[i..][1..] == volumes[i + 1..];
      r := r + ["-v", volumes[i]];
      i := i + 1;
    }
  }

  function WorkDirFlags(flag: string, workDir: string): seq<string> {
    if workDir != "" then [flag, workDir] else []
  }

  const KeepAlive: seq<string> := ["tail", "-f", "/dev/null"]

  /** CreateContainer's arguments. */
  function CreateArgs(name: string, image: string, opts: CreateOptions): seq<string> {
    ["run", "-d", "--name", name]
    + ((if opts.entrypoint != "" then ["--entrypoint", opts.entrypoint] else [])
    + (VolumeFlags(opts.volumes)
    + (WorkDirFlags("-w", opts.workDir)
    + ([image]
    + (if |opts.command| > 0 then opts.command else KeepAlive)))))
  }

  /** ExecCommand's arguments. */
  function ExecArgs(name: string, opts: ExecOptions): seq<string> {
    ["exec"]
    + (if opts.interactive && opts.tty then ["-it"] else if opts.interactive then ["-i"] else [])
    + WorkDirFlags("-w", opts.workDir)
    + [name]
    + opts.command
  }

  /** PruneImages' arguments. */
  function PruneArgs(aggressive: bool): seq<string> {
    ["image", "prune", "-f"] + (if aggressive then ["-a"] else [])
  }

  /** ListContainers (all) and ListRunningContainers with a `name` filter. */
  function ListArgs(all: bool, nameFilter: Option<string>): seq<string> {
    (if all then ["ps", "-a"] else ["ps"]) + ["--format", RowFormat]
    + (if nameFilter.Some? then ["--filter", "name=" + nameFilter.value] else [])
  }

  /** Options and their values never hide the image from docker's parser. */
  lemma {:induction false} RunImageSkipsVolumes(volumes: seq<string>, rest: seq<string>)
    ensures RunImage(VolumeFlags(volumes) + rest) == RunImage(rest)
    decreases |volumes|
  {
    if volumes != [] {
      var all := VolumeFlags(volumes) + rest;
      assert VolumeFlags(volumes) == ["-v", volumes[0]] + VolumeFlags(volumes[1..]);
      assert all[0] == "-v" && IsFlag(all[0]) && |all| >= 2;
      assert all[2..] == VolumeFlags(volumes[1..]) + rest;
      assert RunImage(all) == RunImage(all[2..]);
      RunImageSkipsVolumes(volumes[1..], rest);
    } else {
      assert VolumeFlags(volumes) + rest == rest;
    }
  }

  /** The working-directory option and its value never hide the image. */
  lemma RunImageSkipsWorkDir(workDir: string, image: string, tail: seq<string>)
    requires !IsFlag(image)
    ensures RunImage(WorkDirFlags("-w", workDir) + ([image] + tail)) == Some(image)
  {
    var a := WorkDirFlags("-w", workDir) + ([image] + tail);
    if workDir != "" {
      assert a[0] == "-w" && IsFlag(a[0]) && a[2..] == [image] + tail;
    } else {
      assert a == [image] + tail;
    }
  }

  /** So does the entrypoint option and its value. */
  lemma RunImageSkipsEntrypoint(entrypoint: string, rest: seq<string>)
    ensures RunImage((if entrypoint != "" then ["--entrypoint", entrypoint] else []) + rest) == RunImage(rest)
  {
    var a := (if entrypoint != "" then ["--entrypoint", entrypoint] else []) + rest;
    if entrypoint != "" {
      assert a[0] == "--entrypoint" && IsFlag(a[0]) && a[2..] == rest;
    } else {
      assert a == rest;
    }
  }

  /** Behind `--name n`, docker's parser finds the image CreateContainer passes. */
  lemma CreateArgsImage(name: string, image: string, opts: CreateOptions)
    requires !IsFlag(image)
    ensures CreateArgs(name, image, opts)[..4] == ["run", "-d", "--name", name]
    ensures RunImage(CreateArgs(name, image, opts)[4..]) == Some(image)
  {
    var tail := (if |opts.command| > 0 then opts.command else KeepAlive);
    var afterVolumes := WorkDirFlags("-w", opts.workDir) + ([image] + tail);
    RunImageSkipsWorkDir(opts.workDir, image, tail);
    RunImageSkipsVolumes(opts.volumes, afterVolumes);
    var ep := (if opts.entrypoint != "" then ["--entrypoint", opts.entrypoint] else []);
    RunImageSkipsEntrypoint(opts.entrypoint, VolumeFlags(opts.volumes) + afterVolumes);
    var rest := ep + (VolumeFlags(opts.volumes) + afterVolumes);
    assert CreateArgs(name, image, opts)[4..] == rest;
  }

  /**
   * The arguments CreateContainer builds make the runtime start a new
   * container of that name with that image, whatever the options.
   */
  lemma CreateArgsRun(s: State, name: string, image: string, opts: CreateOptions)
    requires !s.down && !Has(s.containers, name)
    requires (image in s.images || image in s.registry) && !IsFlag(image)
    ensures var r := Interpret(s, CreateArgs(name, image, opts));
      r.ok && r.state.containers == [Instance(name, image, true)] + s.containers
      && r.state.images == s.images + {image}
  {
    var cmd := CreateArgs(name, image, opts);
    CreateArgsImage(name, image, opts);
    assert cmd[0] == "run" && |cmd| >= 4 && cmd[..3] == ["run", "-d", "--name"] && cmd[3] == name;
    assert !IsQuery(cmd);
    assert Interpret(s, cmd) == RunContainer(s, name, cmd[4..]);
  }

  /** The interactive flags of ExecCommand, and the container it names. */
  lemma ExecArgsFlags(name: string, opts: ExecOptions)
    requires !IsFlag(name)
    ensures var a := ExecArgs(name, opts);
      (a[1] == "-it" <==> opts.interactive && opts.tty)
      && (a[1] == "-i" <==> opts.interactive && !opts.tty)
      && ExecTarget(a[1..]) == Some(name)
  {
    var a := ExecArgs(name, opts);
    var w := WorkDirFlags("-w", opts.workDir) + [name] + opts.command;
    if opts.workDir != "" {
      assert w[0] == "-w" && IsFlag(w[0]) && w[2..] == [name] + opts.command;
    }
    assert ExecTarget(w) == Some(name);
    if opts.interactive {
      assert a[1..] == [a[1]] + w;
      assert IsFlag(a[1]) && !(a[1] in {"-w", "--workdir"});
    } else {
      assert a[1..] == w;
    }
  }

  lemma PruneArgsAll(aggressive: bool)
    ensures "-a" in PruneArgs(aggressive) <==> aggressive
    ensures PruneArgs(aggressive)[..3] == ["image", "prune", "-f"]
  {
  }

  // ----- parseContainerList -----

  function ParseLine(line: string): Option<Container> {
    if line == "" then None
    else
      var parts := Split(line, '|');
      if |parts| >= 3 then Some(Container(parts[0], parts[1], parts[2])) else None
  }

  /** Lines in order; blank lines and lines with fewer than three fields are skipped. */
  function ParseLines(lines: seq<string>): (r: seq<Container>)
    ensures |r| <= |lines|
  {
    if lines == [] then []
    else
      (match ParseLine(lines[0]) case Some(c) => [c] case None => [])
      + ParseLines(lines[1..])
  }

  /** What parseContainerList returns for `output`. */
  function ParsedList(output: string): seq<Container> {
    var lines := Split(TrimSpace(output), '\n');
    if |lines| == 1 && lines[0] == "" then [] else ParseLines(lines)
  }

  method ParseContainerList(output: string) returns (containers: seq<Container>)
    ensures containers == ParsedList(output)
  {
    var lines := Split(TrimSpace(output), '\n');
    if |lines| == 1 && lines[0] == "" {
      return [];
    }
    containers := ParseEachLine(lines);
  }

  /** The loop of parseContainerList over the lines of the trimmed output. */
  method ParseEachLine(lines: seq<string>) returns (containers: seq<Container>)
    ensures containers == ParseLines(lines)
  {
    containers := [];
    var i := 0;
    while i < |lines|
      invariant 0 <= i <= |lines|
      invariant containers + ParseLines(lines[i..]) == ParseLines(lines)
      decreases |lines| - i
    {
      assert lines[i..][1..] == lines[i + 1..];
      var line := lines[i];
      if line != "" {
        var parts := Split(line, '|');
        if |parts| >= 3 {
          containers := containers + [Container(parts[0], parts[1], parts[2])];
        }
      }
      i := i + 1;
    }
    assert lines[|lines|..] == [];
  }

  /** Output that is empty or only white space lists no containers. */
  lemma ParsedBlank(output: string)
    requires TrimSpace(output) == ""
    ensures ParsedList(output) == []
  {
  }

  function FormatRow(c: Container): string {
    c.name + "|" + c.status + "|" + c.image
  }

  function FormatRows(cs: seq<Container>): (r: seq<string>)
    ensures |r| == |cs| && forall i | 0 <= i < |cs| :: r[i] == FormatRow(cs[i])
  {
    if cs == [] then [] else [FormatRow(cs[0])] + FormatRows(cs[1..])
  }

  predicate CleanField(f: string) {
    '|' !in f && '\n' !in f
  }

  predicate CleanContainer(c: Container) {
    CleanField(c.name) && CleanField(c.status) && CleanField(c.image)
  }

  lemma ParseRow(c: Container)
    requires CleanContainer(c)
    ensures ParseLine(FormatRow(c)) == Some(c)
  {
    var parts := [c.name, c.status, c.image];
    assert Join(parts, "|") == FormatRow(c) by {
      assert Join(parts[1..], "|") == c.status + "|" + c.image;
    }
    SplitJoin(parts, '|');
  }

  lemma {:induction false} ParseRows(cs: seq<Container>)
    requires forall i | 0 <= i < |cs| :: CleanContainer(cs[i])
    ensures ParseLines(FormatRows(cs)) == cs
    decreases |cs|
  {
    if cs != [] {
      ParseRow(cs[0]);
      assert FormatRows(cs)[1..] == FormatRows(cs[1..]);
      ParseRows(cs[1..]);
    }
  }

  /**
   * Formatting containers as `name|status|image` lines and parsing the
   * text gives the same list back, when no field holds a `|` or a newline
   * and the text has no white space at either end.
   */
  lemma ParseFormatted(cs: seq<Container>)
    requires forall i | 0 <= i < |cs| :: CleanContainer(cs[i])
    requires var text := Join(FormatRows(cs), "\n");
      |text| > 0 ==> !IsSpace(text[0]) && !IsSpace(text[|text| - 1])
    ensures ParsedList(Join(FormatRows(cs), "\n")) == cs
  {
    var rows := FormatRows(cs);
    var text := Join(rows, "\n");
    TrimSpaceOfTrimmed(text);
    if cs == [] {
      assert text == "";
    } else {
      forall i | 0 <= i < |rows|
        ensures '\n' !in rows[i]
      {
        assert rows[i] == cs[i].name + "|" + cs[i].status + "|" + cs[i].image;
      }
      SplitJoin(rows, '\n');
      assert rows[0] != "" by {
        assert rows[0] == cs[0].name + "|" + cs[0].status + "|" + cs[0].image;
      }
      ParseRows(cs);
    }
  }

  // ----- the client's methods -----

  method IsRunning(d: Docker, name: string) returns (running: bool)
    modifies d
    ensures running == Reports(old(d.state), false, name)
    ensures d.state == old(d.state) && d.log == old(d.log) + [PsNames(false)]
  {
    var ok, out := d.Invoke(PsNames(false));
    running := ok && Contains(out, name);
  }

  method Exists(d: Docker, name: string) returns (exists_: bool)
    modifies d
    ensures exists_ == Reports(old(d.state), true, name)
    ensures d.state == old(d.state) && d.log == old(d.log) + [PsNames(true)]
  {
    var ok, out := d.Invoke(PsNames(true));
    exists_ := ok && Contains(out, name);
  }

  /** Start, Stop and Remove: one invocation each; `cmd` is ["start", n], ["stop", n] or ["rm", "-f", n]. */
  method Issue(d: Docker, cmd: Cmd) returns (err: Option<CmdError>)
    modifies d
    ensures var r := Interpret(old(d.state), cmd);
      d.state == r.state && (err.None? <==> r.ok) && (err.Some? ==> err.value == CmdFailed(cmd))
    ensures d.log == old(d.log) + [cmd]
  {
    var ok, _ := d.Invoke(cmd);
    err := if ok then None else Some(CmdFailed(cmd));
  }

  /** `docker start <name>`: one invocation, failing exactly when the runtime refuses it. */
  method Start(d: Docker, name: string) returns (err: Option<CmdError>)
    modifies d
    ensures var r := Interpret(old(d.state), ["start", name]);
      d.state == r.state && (err.None? <==> r.ok)
    ensures d.log == old(d.log) + [["start", name]]
  {
    err := Issue(d, ["start", name]);
  }

  method Stop(d: Docker, name: string) returns (err: Option<CmdError>)
    modifies d
    ensures var r := Interpret(old(d.state), ["stop", name]);
      d.state == r.state && (err.None? <==> r.ok)
    ensures d.log == old(d.log) + [["stop", name]]
  {
    err := Issue(d, ["stop", name]);
  }

  /** `docker rm -f`: forcefully, so a running container goes too. */
  method Remove(d: Docker, name: string) returns (err: Option<CmdError>)
    modifies d
    ensures var r := Interpret(old(d.state), ["rm", "-f", name]);
      d.state == r.state && (err.None? <==> r.ok)
    ensures d.log == old(d.log) + [["rm", "-f", name]]
  {
    err := Issue(d, ["rm", "-f", name]);
  }

  /** Appending the pieces one after another, as CreateContainer does, gives CreateArgs. */
  lemma CreateArgsAppended(head: seq<string>, name: string, image: string, opts: CreateOptions)
    requires head == ["run", "-d", "--name", name] + (if opts.entrypoint != "" then ["--entrypoint", opts.entrypoint] else [])
    ensures head + VolumeFlags(opts.volumes) + WorkDirFlags("-w", opts.workDir) + [image]
      + (if |opts.command| > 0 then opts.command else KeepAlive) == CreateArgs(name, image, opts)
  {
    var v, w, t := VolumeFlags(opts.volumes), WorkDirFlags("-w", opts.workDir), (if |opts.command| > 0 then opts.command else KeepAlive);
    assert head + v + w + [image] + t == head + (v + (w + ([image] + t)));
  }

  method CreateContainer(d: Docker, name: string, image: string, opts: CreateOptions) returns (err: Option<CmdError>)
    modifies d
    ensures var r := Interpret(old(d.state), CreateArgs(name, image, opts));
      d.state == r.state && (err.None? <==> r.ok)
    ensures d.log == old(d.log) + [CreateArgs(name, image, opts)]
  {
    var args := ["run", "-d", "--name", name];
    if opts.entrypoint != "" {
      args := args + ["--entrypoint", opts.entrypoint];
    }
    ghost var head := args;
    args := AppendVolumes(args, opts.volumes);
    ghost var withVolumes := args;
    if opts.workDir != "" {
      args := args + ["-w", opts.workDir];
    }
    assert args == withVolumes + WorkDirFlags("-w", opts.workDir);
    ghost var withWorkDir := args;
    args := args + [image];
    if |opts.command| > 0 {
      args := args + opts.command;
    } else {
      args := args + KeepAlive;
    }
    assert args == withWorkDir + [image] + (if |opts.command| > 0 then opts.command else KeepAlive);
    CreateArgsAppended(head, name, image, opts);
    err := Issue(d, args);
  }

  method ExecCommand(d: Docker, name: string, opts: ExecOptions) returns (err: Option<CmdError>)
    modifies d
    ensures d.state == old(d.state)
    ensures err.None? <==> Interpret(old(d.state), ExecArgs(name, opts)).ok
    ensures d.log == old(d.log) + [ExecArgs(name, opts)]
  {
    var args := ["exec"];
    if opts.interactive && opts.tty {
      args := args + ["-it"];
    } else if opts.interactive {
      args := args + ["-i"];
    }
    ghost var head := args;
    if opts.workDir != "" {
      args := args + ["-w", opts.workDir];
    }
    assert args == head + WorkDirFlags("-w", opts.workDir);
    args := args + [name] + opts.command;
    assert args == ExecArgs(name, opts);
    err := Issue(d, args);
  }

  method ImageExists(d: Docker, image: string) returns (present: bool)
    modifies d
    ensures present <==> !old(d.state).down && image in old(d.state).images
    ensures d.state == old(d.state) && d.log == old(d.log) + [["image", "inspect", image]]
  {
    var cmd := ["image", "inspect", image];
    assert IsQuery(cmd) && cmd[0] != "ps" && cmd[0] != "exec" && cmd[..2] == ["image", "inspect"];
    var ok, _ := d.Invoke(cmd);
    present := ok;
  }

  method PullImage(d: Docker, image: string) returns (err: Option<CmdError>)
    modifies d
    ensures err.None? <==> !old(d.state).down && image in old(d.state).registry
    ensures err.None? ==> d.state == old(d.state).(images := old(d.state).images + {image})
    ensures err.Some? ==> d.state == old(d.state)
    ensures d.log == old(d.log) + [["pull", image]]
  {
    var cmd := ["pull", image];
    assert cmd[0][0] == 'p';
    assert !IsQuery(cmd) && cmd[0] != "start" && cmd[0] != "stop" && cmd[0] != "rm" && cmd[0] != "run";
    assert Interpret(old(d.state), cmd) == (if old(d.state).down then Fail(old(d.state)) else ImageCommand(old(d.state), cmd));
    err := Issue(d, cmd);
  }

  method GetContainerImage(d: Docker, name: string) returns (r: Result<string, CmdError>)
    modifies d
    ensures r == ImageOf(old(d.state), name)
    ensures d.state == old(d.state) && d.log == old(d.log) + [InspectImage(name)]
  {
    var ok, out := d.Invoke(InspectImage(name));
    if !ok {
      return Err(CmdFailed(InspectImage(name)));
    }
    return Ok(TrimSpace(out));
  }

  /** ListContainers (all) or ListRunningContainers, with at most the `name` filter. */
  method ListContainers(d: Docker, all: bool, nameFilter: Option<string>) returns (r: Result<seq<Container>, CmdError>)
    modifies d
    ensures var q := Interpret(old(d.state), ListArgs(all, nameFilter));
      r == if q.ok then Ok(ParsedList(q.out)) else Err(CmdFailed(ListArgs(all, nameFilter)))
    ensures d.state == old(d.state) && d.log == old(d.log) + [ListArgs(all, nameFilter)]
  {
    var args := ListArgs(all, nameFilter);
    var ok, out := d.Invoke(args);
    if !ok {
      return Err(CmdFailed(args));
    }
    var containers := ParseContainerList(out);
    return Ok(containers);
  }

  method PruneImages(d: Docker, aggressive: bool) returns (err: Option<CmdError>)
    modifies d
    ensures var r := Interpret(old(d.state), PruneArgs(aggressive));
      d.state == r.state && (err.None? <==> r.ok)
    ensures d.log == old(d.log) + [PruneArgs(aggressive)]
  {
    var args := ["image", "prune", "-f"];
    if aggressive {
      args := args + ["-a"];
    }
    err := Issue(d, args);
  }
}

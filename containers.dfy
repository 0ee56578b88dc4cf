/**
 * Container definitions (pkg/containers/containers.go): the manifest
 * lookup, the argument lists for `docker run` and `docker exec`, the
 * helpers that render a definition as Go and shell text, and the
 * reconciler that makes a command's container run before the command is
 * executed in it.
 */
module Containers {
  import opened Wrappers
  import opened Strings
  import opened Engine
  import opened DockerClient

  datatype ContainerDefinition = ContainerDefinition(
    description: string,
    commands: seq<string>,
    workDir: string,
    volumes: seq<string>)

  datatype ContainerManifest = ContainerManifest(containers: map<string, ContainerDefinition>)

  /** The name every runtime container of the package manager carries. */
  function FullName(name: string): string {
    "yourpm-" + name
  }

  /** A definition is found exactly when its name is a key of the manifest. */
  function GetContainer(m: ContainerManifest, name: string): (r: Result<ContainerDefinition, string>)
    ensures r.Ok? <==> name in m.containers
    ensures r.Ok? ==> r.value == m.containers[name]
    ensures r.Err? ==> r.error == "container " + name + " not found in manifest"
  {
    if name in m.containers then Ok(m.containers[name])
    else Err("container " + name + " not found in manifest")
  }

  // ----- argument lists -----

  /** The one-shot `docker run --rm -i` of CreateDockerCommand. */
  function OneShotArgs(c: ContainerDefinition, image: string, command: string, args: seq<string>): seq<string> {
    ["run", "--rm", "-i"]
    + (VolumeFlags(c.volumes)
    + (WorkDirFlags("-w", c.workDir)
    + ([image, command] + args)))
  }

  method CreateDockerCommand(c: ContainerDefinition, containerName: string, image: string, command: string, args: seq<string>)
    returns (dockerArgs: seq<string>)
    ensures dockerArgs == OneShotArgs(c, image, command, args)
  {
    dockerArgs := ["run", "--rm", "-i"];
    ghost var head := dockerArgs;
    dockerArgs := AppendVolumes(dockerArgs, c.volumes);
    if c.workDir != "" {
      dockerArgs := dockerArgs + ["-w", c.workDir];
    }
    dockerArgs := dockerArgs + [image];
    dockerArgs := dockerArgs + [command];
    dockerArgs := dockerArgs + args;
    assert dockerArgs == head + VolumeFlags(c.volumes) + WorkDirFlags("-w", c.workDir) + [image] + [command] + args;
    ghost var v, w := VolumeFlags(c.volumes), WorkDirFlags("-w", c.workDir);
    assert head + v + w + [image] + [command] + args == head + (v + (w + ([image, command] + args)));
  }

  /** docker's parser reads the image where CreateDockerCommand put it. */
  lemma OneShotArgsImage(c: ContainerDefinition, image: string, command: string, args: seq<string>)
    requires !IsFlag(image)
    ensures RunImage(OneShotArgs(c, image, command, args)[1..]) == Some(image)
  {
    var tail := [command] + args;
    assert [image, command] + args == [image] + tail;
    RunImageSkipsWorkDir(c.workDir, image, tail);
    var afterVolumes := WorkDirFlags("-w", c.workDir) + ([image] + tail);
    RunImageSkipsVolumes(c.volumes, afterVolumes);
    var x := OneShotArgs(c, image, command, args)[1..];
    assert x == ["--rm", "-i"] + (VolumeFlags(c.volumes) + afterVolumes);
    assert x[0] == "--rm" && IsFlag(x[0]) && x[1..] == ["-i"] + (VolumeFlags(c.volumes) + afterVolumes);
    var y := x[1..];
    assert y[0] == "-i" && IsFlag(y[0]) && y[1..] == VolumeFlags(c.volumes) + afterVolumes;
  }

  /**
   * CreateDockerCommand's list: the three fixed words, the volume flags in
   * order, then `-w` exactly when a working directory is set, and the
   * image, the command and its arguments at the end.
   */
  lemma OneShotArgsLayout(c: ContainerDefinition, image: string, command: string, args: seq<string>)
    requires !IsFlag(image)
    ensures var r := OneShotArgs(c, image, command, args);
      r[..3] == ["run", "--rm", "-i"]
      && r[3..3 + 2 * |c.volumes|] == VolumeFlags(c.volumes)
      && r[|r| - |args| - 2..] == [image, command] + args
      && (c.workDir != "" <==> r[3 + 2 * |c.volumes|] == "-w")
  {
    var v := VolumeFlags(c.volumes);
    var w := WorkDirFlags("-w", c.workDir);
    var t := [image, command] + args;
    var h := ["run", "--rm", "-i"];
    assert OneShotArgs(c, image, command, args) == h + v + (w + t);
    ThreeParts(h, v, w + t);
    assert OneShotArgs(c, image, command, args) == (h + v) + w + t;
    ThreeParts(h + v, w, t);
    WorkDirOrImage(c.workDir, image, t);
  }

  /** What follows the volume flags starts with `-w` exactly when a working directory is set. */
  lemma WorkDirOrImage(workDir: string, image: string, rest: seq<string>)
    requires !IsFlag(image) && |rest| > 0 && rest[0] == image
    ensures (WorkDirFlags("-w", workDir) + rest)[0] == "-w" <==> workDir != ""
  {
    assert image != "-w" by {
      assert "-w"[0] == '-';
    }
  }

  /** The three parts of a concatenation are found at their offsets. */
  lemma ThreeParts(a: seq<string>, b: seq<string>, c: seq<string>)
    ensures (a + b + c)[..|a|] == a && (a + b + c)[|a|..|a| + |b|] == b && (a + b + c)[|a| + |b|..] == c
  {
    var x := a + b + c;
    assert x[..|a|] == a;
    assert x[|a|..|a| + |b|] == b;
  }

  /** The long-lived container of createContainer: no entrypoint, kept alive by `tail -f /dev/null`. */
  function KeepAliveArgs(name: string, image: string, c: ContainerDefinition): seq<string> {
    ["run", "-d", "--name", name]
    + (["--entrypoint", ""]
    + (VolumeFlags(c.volumes)
    + (WorkDirFlags("-w", c.workDir)
    + ([image] + KeepAlive))))
  }

  /** Behind `--name n`, docker's parser finds the image createContainer passes. */
  lemma KeepAliveArgsImage(name: string, image: string, c: ContainerDefinition)
    requires !IsFlag(image)
    ensures KeepAliveArgs(name, image, c)[..4] == ["run", "-d", "--name", name]
    ensures RunImage(KeepAliveArgs(name, image, c)[4..]) == Some(image)
  {
    var afterVolumes := WorkDirFlags("-w", c.workDir) + ([image] + KeepAlive);
    RunImageSkipsWorkDir(c.workDir, image, KeepAlive);
    RunImageSkipsVolumes(c.volumes, afterVolumes);
    var rest := ["--entrypoint", ""] + (VolumeFlags(c.volumes) + afterVolumes);
    assert rest[0] == "--entrypoint" && IsFlag(rest[0]) && rest[2..] == VolumeFlags(c.volumes) + afterVolumes;
    assert KeepAliveArgs(name, image, c)[4..] == rest;
  }

  /**
   * On a reachable daemon without a container of that name, and with the
   * image present or pullable, createContainer's invocation starts exactly
   * one new running container of that name and image.
   */
  lemma KeepAliveRun(s: State, name: string, image: string, c: ContainerDefinition)
    requires !s.down && !Has(s.containers, name)
    requires (image in s.images || image in s.registry) && !IsFlag(image)
    ensures Interpret(s, KeepAliveArgs(name, image, c))
      == Response(s.(containers := [Instance(name, image, true)] + s.containers, images := s.images + {image}), true, "")
  {
    var cmd := KeepAliveArgs(name, image, c);
    KeepAliveArgsImage(name, image, c);
    assert cmd[0] == "run" && |cmd| >= 4 && cmd[..3] == ["run", "-d", "--name"] && cmd[3] == name;
    assert !IsQuery(cmd);
    assert Interpret(s, cmd) == RunContainer(s, name, cmd[4..]);
  }

  /** createContainer: one `docker run -d` of the keep-alive container. */
  method CreateKeepAlive(d: Docker, c: ContainerDefinition, name: string, image: string) returns (err: Option<CmdError>)
    modifies d
    ensures var r := Interpret(old(d.state), KeepAliveArgs(name, image, c));
      d.state == r.state && (err.None? <==> r.ok)
    ensures d.log == old(d.log) + [KeepAliveArgs(name, image, c)]
  {
    var args := ["run", "-d", "--name", name, "--entrypoint", ""];
    ghost var head := args;
    args := AppendVolumes(args, c.volumes);
    if c.workDir != "" {
      args := args + ["-w", c.workDir];
    }
    args := args + [image, "tail", "-f", "/dev/null"];
    assert args == head + VolumeFlags(c.volumes) + WorkDirFlags("-w", c.workDir) + ([image] + KeepAlive);
    ghost var v, w := VolumeFlags(c.volumes), WorkDirFlags("-w", c.workDir);
    assert head + v + w + ([image] + KeepAlive) == ["run", "-d", "--name", name] + (["--entrypoint", ""] + (v + (w + ([image] + KeepAlive))));
    err := Issue(d, args);
  }

  // ----- Go and shell text -----

  function Quote(s: string): string {
    "\"" + s + "\""
  }

  function QuotedItems(items: seq<string>): (r: seq<string>)
    ensures |r| == |items| && forall i | 0 <= i < |items| :: r[i] == Quote(items[i])
  {
    if items == [] then [] else [Quote(items[0])] + QuotedItems(items[1..])
  }

  /** What formatStringSlice renders: a Go `[]string` literal of the quoted items. */
  function SliceLiteral(items: seq<string>): string {
    if items == [] then "[]string{}" else "[]string{" + Join(QuotedItems(items), ", ") + "}"
  }

  method FormatStringSlice(slice: seq<string>) returns (r: string)
    ensures r == SliceLiteral(slice)
  {
    if |slice| == 0 {
      return "[]string{}";
    }
    var result := "[]string{";
    var i := 0;
    while i < |slice|
      invariant 0 <= i <= |slice|
      invariant i == 0 ==> result == "[]string{"
      invariant i > 0 ==> result == "[]string{" + Join(QuotedItems(slice[..i]), ", ")
      decreases |slice| - i
    {
      assert QuotedItems(slice[..i + 1]) == QuotedItems(slice[..i]) + [Quote(slice[i])];
      if i > 0 {
        JoinAppend(QuotedItems(slice[..i]), Quote(slice[i]), ", ");
        result := result + ", ";
      } else {
        assert QuotedItems(slice[..1]) == [Quote(slice[0])];
      }
      result := result + Quote(slice[i]);
      i := i + 1;
    }
    assert slice[..i] == slice;
    r := result + "}";
  }

  /** formatVolumeMounts' word for one volume: `"-v" "volume"`. */
  function MountWord(volume: string): string {
    Quote("-v") + " " + Quote(volume)
  }

  function MountWords(volumes: seq<string>): (r: seq<string>)
    ensures |r| == |volumes| && forall i | 0 <= i < |volumes| :: r[i] == MountWord(volumes[i])
  {
    if volumes == [] then [] else [MountWord(volumes[0])] + MountWords(volumes[1..])
  }

  /** What formatVolumeMounts renders: the mount words separated by single spaces. */
  function VolumeMounts(volumes: seq<string>): string {
    Join(MountWords(volumes), " ")
  }

  method FormatVolumeMounts(c: ContainerDefinition) returns (r: string)
    ensures r == VolumeMounts(c.volumes)
  {
    var mounts: seq<string> := [];
    var i := 0;
    while i < |c.volumes|
      invariant 0 <= i <= |c.volumes|
      invariant mounts == MountWords(c.volumes[..i])
      decreases |c.volumes| - i
    {
      assert MountWords(c.volumes[..i + 1]) == MountWords(c.volumes[..i]) + [MountWord(c.volumes[i])];
      mounts := mounts + [MountWord(c.volumes[i])];
      i := i + 1;
    }
    assert c.volumes[..i] == c.volumes;
    r := Join(mounts, " ");
  }

  /** formatWorkDir: empty exactly when no working directory is set; otherwise `"-w" "dir"`, from which the directory reads back. */
  function FormatWorkDir(c: ContainerDefinition): (r: string)
    ensures r == "" <==> c.workDir == ""
    ensures c.workDir != "" ==> |r| == 7 + |c.workDir| && r[..6] == "\"-w\" \"" && r[6..|r| - 1] == c.workDir
  {
    if c.workDir == "" then "" else Quote("-w") + " " + Quote(c.workDir)
  }

  /** formatWorkDirExec: empty exactly when no working directory is set; otherwise `--workdir="dir"`, from which the directory reads back. */
  function FormatWorkDirExec(c: ContainerDefinition): (r: string)
    ensures r == "" <==> c.workDir == ""
    ensures c.workDir != "" ==> |r| == 12 + |c.workDir| && r[..11] == "--workdir=\"" && r[11..|r| - 1] == c.workDir
  {
    if c.workDir == "" then "" else "--workdir=" + Quote(c.workDir)
  }

  /** Every second piece, starting with the second: what sits between a pair of quotes. */
  function OddPieces(ps: seq<string>): (r: seq<string>)
    decreases |ps|
  {
    if |ps| < 2 then [] else [ps[1]] + OddPieces(ps[2..])
  }

  /** The pieces between quote characters of `p "w0" sep "w1" ... "wn" q`. */
  function Frame(p: string, items: seq<string>, sep: string, q: string): (r: seq<string>)
    requires |items| >= 1
    ensures |r| == 2 * |items| + 1
    decreases |items|
  {
    [p, items[0]] + (if |items| == 1 then [q] else Frame(sep, items[1..], sep, q))
  }

  lemma {:induction false} FrameJoin(p: string, items: seq<string>, sep: string, q: string)
    requires |items| >= 1
    ensures p + Join(QuotedItems(items), sep) + q == Join(Frame(p, items, sep, q), "\"")
    decreases |items|
  {
    var f := Frame(p, items, sep, q);
    var i0 := items[0];
    if |items| == 1 {
      FrameJoinSingle(p, items, sep, q);
    } else {
      var rest := Frame(sep, items[1..], sep, q);
      var j := Join(QuotedItems(items[1..]), sep);
      FrameJoin(sep, items[1..], sep, q);
      assert Join(QuotedItems(items), sep) == Quote(i0) + sep + j by {
        assert QuotedItems(items) == [Quote(i0)] + QuotedItems(items[1..]);
        JoinCons(Quote(i0), QuotedItems(items[1..]), sep);
      }
      assert Join(f, "\"") == p + "\"" + (i0 + "\"" + Join(rest, "\"")) by {
        assert f == [p] + ([i0] + rest);
        JoinCons(i0, rest, "\"");
        JoinCons(p, [i0] + rest, "\"");
      }
      QuoteAssoc(p, i0, sep, j, q);
    }
  }

  lemma FrameJoinSingle(p: string, items: seq<string>, sep: string, q: string)
    requires |items| == 1
    ensures p + Join(QuotedItems(items), sep) + q == Join(Frame(p, items, sep, q), "\"")
  {
    var i0 := items[0];
    assert QuotedItems(items) == [Quote(i0)];
    assert Frame(p, items, sep, q) == [p] + ([i0] + [q]);
    JoinCons(i0, [q], "\"");
    JoinCons(p, [i0] + [q], "\"");
    assert p + Quote(i0) + q == p + "\"" + (i0 + "\"" + q);
  }

  lemma JoinCons(x: string, rest: seq<string>, sep: string)
    requires |rest| >= 1
    ensures Join([x] + rest, sep) == x + sep + Join(rest, sep)
  {
    assert ([x] + rest)[1..] == rest;
  }

  lemma QuoteAssoc(p: string, i0: string, sep: string, j: string, q: string)
    ensures p + (Quote(i0) + sep + j) + q == p + "\"" + (i0 + "\"" + (sep + j + q))
  {
  }

  lemma {:induction false} FrameOddPieces(p: string, items: seq<string>, sep: string, q: string)
    requires |items| >= 1
    ensures OddPieces(Frame(p, items, sep, q)) == items
    decreases |items|
  {
    var f := Frame(p, items, sep, q);
    if |items| == 1 {
      assert f == [p, items[0], q] && f[2..] == [q];
    } else {
      FrameOddPieces(sep, items[1..], sep, q);
      assert f[2..] == Frame(sep, items[1..], sep, q);
      assert items == [items[0]] + items[1..];
    }
  }

  /**
   * Quoting words that hold no quote character, joining them with a
   * separator and framing the text with a prefix and a suffix, all free of
   * quotes, is undone by splitting at the quotes and taking what sits
   * between each pair.
   */
  lemma QuotedRoundTrip(p: string, items: seq<string>, sep: string, q: string)
    requires |items| >= 1
    requires '"' !in p && '"' !in sep && '"' !in q
    requires forall i | 0 <= i < |items| :: '"' !in items[i]
    ensures OddPieces(Split(p + Join(QuotedItems(items), sep) + q, '"')) == items
  {
    var f := Frame(p, items, sep, q);
    FrameJoin(p, items, sep, q);
    assert forall k | 0 <= k < |f| :: '"' !in f[k] by {
      FrameClean(p, items, sep, q);
    }
    SplitJoin(f, '"');
    FrameOddPieces(p, items, sep, q);
  }

  lemma {:induction false} FrameClean(p: string, items: seq<string>, sep: string, q: string)
    requires |items| >= 1
    requires '"' !in p && '"' !in sep && '"' !in q
    requires forall i | 0 <= i < |items| :: '"' !in items[i]
    ensures forall k | 0 <= k < |Frame(p, items, sep, q)| :: '"' !in Frame(p, items, sep, q)[k]
    decreases |items|
  {
    if |items| > 1 {
      FrameClean(sep, items[1..], sep, q);
    }
  }

  /**
   * The Go literal of formatStringSlice gives its items back: splitting it
   * at the quotes, every second piece is an item, in order, provided no
   * item holds a quote character.
   */
  lemma SliceLiteralItems(items: seq<string>)
    requires forall i | 0 <= i < |items| :: '"' !in items[i]
    ensures OddPieces(Split(SliceLiteral(items), '"')) == items
    ensures SliceLiteral(items)[..9] == "[]string{" && SliceLiteral(items)[|SliceLiteral(items)| - 1] == '}'
  {
    SliceLiteralPieces(items);
    SliceLiteralBrackets(items);
  }

  lemma SliceLiteralPieces(items: seq<string>)
    requires forall i | 0 <= i < |items| :: '"' !in items[i]
    ensures OddPieces(Split(SliceLiteral(items), '"')) == items
  {
    if items == [] {
      SplitWithoutSeparator("[]string{}", '"');
    } else {
      QuotedRoundTrip("[]string{", items, ", ", "}");
    }
  }

  lemma SliceLiteralBrackets(items: seq<string>)
    ensures SliceLiteral(items)[..9] == "[]string{" && SliceLiteral(items)[|SliceLiteral(items)| - 1] == '}'
  {
    if items != [] {
      var body := Join(QuotedItems(items), ", ");
      assert SliceLiteral(items) == "[]string{" + (body + "}");
    }
  }

  /** The mount words are the quoted `-v volume` flags of createContainer, separated by spaces. */
  lemma {:induction false} MountWordsQuoted(volumes: seq<string>)
    ensures Join(MountWords(volumes), " ") == Join(QuotedItems(VolumeFlags(volumes)), " ")
    decreases |volumes|
  {
    if |volumes| == 1 {
      assert VolumeFlags(volumes) == ["-v", volumes[0]];
      assert QuotedItems(VolumeFlags(volumes)) == [Quote("-v"), Quote(volumes[0])];
      assert MountWords(volumes) == [MountWord(volumes[0])];
    } else if |volumes| > 1 {
      MountWordsQuoted(volumes[1..]);
      var flags := VolumeFlags(volumes);
      assert flags == ["-v", volumes[0]] + VolumeFlags(volumes[1..]);
      var qs := QuotedItems(flags);
      assert qs[2..] == QuotedItems(VolumeFlags(volumes[1..]));
      assert qs[1..][1..] == qs[2..];
      assert |VolumeFlags(volumes[1..])| >= 2;
      assert Join(qs, " ") == Quote("-v") + " " + (Quote(volumes[0]) + " " + Join(qs[2..], " "));
      assert MountWords(volumes)[1..] == MountWords(volumes[1..]);
    }
  }

  lemma {:induction false} VolumeFlagsClean(volumes: seq<string>)
    requires forall i | 0 <= i < |volumes| :: '"' !in volumes[i]
    ensures forall i | 0 <= i < |VolumeFlags(volumes)| :: '"' !in VolumeFlags(volumes)[i]
    decreases |volumes|
  {
    if volumes != [] {
      VolumeFlagsClean(volumes[1..]);
      var rest := VolumeFlags(volumes[1..]);
      assert VolumeFlags(volumes) == ["-v", volumes[0]] + rest;
      forall i | 0 <= i < |VolumeFlags(volumes)| ensures '"' !in VolumeFlags(volumes)[i] {
        if i >= 2 {
          assert VolumeFlags(volumes)[i] == rest[i - 2];
        }
      }
    }
  }

  /**
   * The mount text of formatVolumeMounts is empty exactly when there are no
   * volumes, and, split at its quotes, gives back the `-v volume` flags
   * createContainer passes, when no volume holds a quote character.
   */
  lemma VolumeMountsFlags(volumes: seq<string>)
    requires forall i | 0 <= i < |volumes| :: '"' !in volumes[i]
    ensures VolumeMounts(volumes) == "" <==> volumes == []
    ensures OddPieces(Split(VolumeMounts(volumes), '"')) == VolumeFlags(volumes)
  {
    if volumes != [] {
      var flags := VolumeFlags(volumes);
      VolumeFlagsClean(volumes);
      MountWordsQuoted(volumes);
      QuotedRoundTrip("", flags, " ", "");
      assert "" + Join(QuotedItems(flags), " ") + "" == VolumeMounts(volumes);
      assert |Split("", '"')| == 1;
    }
  }

  // ----- ensureContainerRunning and ExecuteCommand -----

  /**
   * ensureContainerRunning: nothing more when the running listing shows
   * the name, a start when the full listing does, a create otherwise. The
   * listings are searched for the name as a substring, and the image of an
   * existing container is never looked at.
   */
  function EnsureRunning(s: State, name: string, image: string, c: ContainerDefinition): Effect {
    if Reports(s, false, name) then Effect(s, [PsNames(false)], true)
    else
      var cmd := if Reports(s, true, name) then ["start", name] else KeepAliveArgs(name, image, c);
      var r := Interpret(s, cmd);
      Effect(r.state, [PsNames(false), PsNames(true), cmd], r.ok)
  }

  method EnsureContainerRunning(d: Docker, c: ContainerDefinition, name: string, image: string) returns (err: Option<CmdError>)
    modifies d
    ensures var e := EnsureRunning(old(d.state), name, image, c);
      d.state == e.state && d.log == old(d.log) + e.calls && (err.None? <==> e.ok)
  {
    ghost var log0 := d.log;
    var running := IsRunning(d, name);
    if running {
      return None;
    }
    var exists_ := Exists(d, name);
    err := StartOrCreate(d, c, name, image, exists_);
    LogAssoc(log0 + [PsNames(false)], [PsNames(true)], d.log[|log0| + 2..]);
    assert d.log == log0 + [PsNames(false), PsNames(true)] + d.log[|log0| + 2..];
  }

  /** A reported running container gets no invocation that can change anything. */
  lemma EnsureRunningIdle(s: State, name: string, image: string, c: ContainerDefinition)
    requires Reports(s, false, name)
    ensures var e := EnsureRunning(s, name, image, c);
      e.ok && e.state == s && Mutations(e.calls) == []
  {
    assert IsQuery(PsNames(false));
  }

  /**
   * A container that is not reported at all is created, running, with the
   * requested image: exactly one mutating invocation, no start and no
   * remove.
   */
  lemma EnsureRunningCreates(s: State, name: string, image: string, c: ContainerDefinition)
    requires !s.down && !Reports(s, false, name) && !Reports(s, true, name)
    requires (image in s.images || image in s.registry) && !IsFlag(image)
    ensures var e := EnsureRunning(s, name, image, c);
      e.ok && Find(e.state.containers, name) == Some(Instance(name, image, true))
      && Mutations(e.calls) == [KeepAliveArgs(name, image, c)]
  {
    if Has(s.containers, name) {
      ReportsExisting(s, name);
    }
    KeepAliveRun(s, name, image, c);
    var cmd := KeepAliveArgs(name, image, c);
    assert cmd[0] == "run" && !IsQuery(cmd);
    MutationsAfterListings(cmd);
  }

  /** A stopped container that the running listing does not report is started, and keeps its image. */
  lemma EnsureRunningStarts(s: State, name: string, image: string, c: ContainerDefinition, old_: Instance)
    requires !s.down && !Reports(s, false, name)
    requires Find(s.containers, name) == Some(old_)
    ensures var e := EnsureRunning(s, name, image, c);
      e.ok && Find(e.state.containers, name) == Some(old_.(running := true))
      && Mutations(e.calls) == [["start", name]]
  {
    ReportsExisting(s, name);
    StartEffect(s, name);
    FindWithRunning(s.containers, name, true, name);
    MutationsAfterListings(["start", name]);
  }

  /** `docker start` of a container the runtime has succeeds and sets it running. */
  lemma StartEffect(s: State, name: string)
    requires !s.down && Has(s.containers, name)
    ensures Interpret(s, ["start", name]) == Response(s.(containers := WithRunning(s.containers, name, true)), true, "")
  {
    var cmd := ["start", name];
    assert !IsQuery(cmd) && cmd[0] != "rm" && cmd[0] != "run";
    assert Interpret(s, cmd) == Lifecycle(s, "start", name);
  }

  /** The two listings change nothing; only the invocation after them can. */
  lemma MutationsAfterListings(cmd: Cmd)
    requires !IsQuery(cmd)
    ensures Mutations([PsNames(false), PsNames(true), cmd]) == [cmd]
  {
    assert IsQuery(PsNames(false)) && IsQuery(PsNames(true));
    assert [PsNames(false), PsNames(true), cmd][1..] == [PsNames(true), cmd];
    assert [PsNames(true), cmd][1..] == [cmd];
  }

  /**
   * ensureContainerRunning never compares images: a container of that name
   * keeps the image it was created with, whatever image is requested.
   */
  lemma EnsureRunningKeepsImage(s: State, name: string, image: string, c: ContainerDefinition, old_: Instance)
    requires Find(s.containers, name) == Some(old_)
    ensures var e := EnsureRunning(s, name, image, c);
      Find(e.state.containers, name).Some? && Find(e.state.containers, name).value.image == old_.image
  {
    if !s.down && !Reports(s, false, name) {
      ReportsExisting(s, name);
      StartEffect(s, name);
      FindWithRunning(s.containers, name, true, name);
    }
  }

  /** ... and whatever the runtime holds, no invocation it issues is a remove. */
  lemma EnsureRunningNeverRemoves(s: State, name: string, image: string, c: ContainerDefinition)
    ensures var e := EnsureRunning(s, name, image, c);
      forall k | 0 <= k < |e.calls| :: e.calls[k] != [] && e.calls[k][0] != "rm"
  {
    var calls := EnsureRunning(s, name, image, c).calls;
    var cmd := if Reports(s, true, name) then ["start", name] else KeepAliveArgs(name, image, c);
    assert calls == if Reports(s, false, name) then [PsNames(false)] else [PsNames(false), PsNames(true), cmd];
    assert PsNames(false)[0] == "ps" && PsNames(true)[0] == "ps";
    assert cmd[0] == "start" || cmd[0] == "run";
    forall k | 0 <= k < |calls|
      ensures calls[k] != [] && calls[k][0] != "rm"
    {
      assert calls[k] == PsNames(false) || calls[k] == PsNames(true) || calls[k] == cmd;
    }
  }

  /** The full-listing query reports a name as present when another container's name contains it. */
  lemma StoppedShadowed()
    ensures var s := State([Instance("yourpm-golang", "golang:1.22", true), Instance("yourpm-go", "golang:1.21", false)], {}, {}, false);
      var e := EnsureRunning(s, "yourpm-go", "golang:1.21", ContainerDefinition("", ["go"], "", []));
      e.ok && e.state == s && Find(e.state.containers, "yourpm-go") == Some(Instance("yourpm-go", "golang:1.21", false))
  {
    var s := State([Instance("yourpm-golang", "golang:1.22", true), Instance("yourpm-go", "golang:1.21", false)], {}, {}, false);
    assert Running(s.containers) == [s.containers[0]];
    assert Listing(Names(Running(s.containers))) == "yourpm-golang\n";
    assert OccursAt("yourpm-golang\n", "yourpm-go", 0);
    assert Reports(s, false, "yourpm-go");
    assert s.containers[0].name != "yourpm-go";
  }

  /** The reading the listings were meant to have: some line is exactly the name. */
  predicate ListsExactly(s: State, all: bool, name: string) {
    var r := Interpret(s, PsNames(all));
    r.ok && name != "" && name in Split(r.out, '\n')
  }

  /** No container name holds a line break. */
  predicate PlainNames(cs: seq<Instance>) {
    forall i | 0 <= i < |cs| :: '\n' !in cs[i].name
  }

  lemma PlainRunning(cs: seq<Instance>)
    requires PlainNames(cs)
    ensures PlainNames(Running(cs))
  {
    var r := Running(cs);
    forall i | 0 <= i < |r| ensures '\n' !in r[i].name {
      assert r[i] in r;
      var j :| 0 <= j < |cs| && cs[j] == r[i];
    }
  }

  /** Split into lines, a name listing holds a non-empty name exactly when some container has it. */
  lemma ListedLines(cs: seq<Instance>, name: string)
    requires name != "" && PlainNames(cs)
    ensures name in Split(Listing(Names(cs)), '\n') <==> Has(cs, name)
  {
    var names := Names(cs);
    ListingLines(names);
    if name in names + [""] {
      assert name in names;
      var k :| 0 <= k < |names| && names[k] == name;
      assert cs[k].name == name;
    }
    if Has(cs, name) {
      var k :| 0 <= k < |cs| && cs[k].name == name;
      assert (names + [""])[k] == name;
    }
  }

  /** With exact lines, the full listing shows a name exactly when some container has it. */
  lemma ListsExactlyAll(s: State, name: string)
    requires !s.down && name != "" && PlainNames(s.containers)
    ensures ListsExactly(s, true, name) <==> Has(s.containers, name)
  {
    PsNamesAnswer(s, true);
    ListedLines(s.containers, name);
  }

  /** With exact lines, the running listing shows a name exactly when a running container has it. */
  lemma ListsExactlyRunning(s: State, name: string)
    requires !s.down && name != "" && PlainNames(s.containers)
    ensures ListsExactly(s, false, name) <==> Has(Running(s.containers), name)
  {
    PsNamesAnswer(s, false);
    PlainRunning(s.containers);
    ListedLines(Running(s.containers), name);
  }

  /** ensureContainerRunning with exact-line queries in place of substring tests. */
  function EnsureRunningExact(s: State, name: string, image: string, c: ContainerDefinition): Effect {
    if ListsExactly(s, false, name) then Effect(s, [PsNames(false)], true)
    else
      var cmd := if ListsExactly(s, true, name) then ["start", name] else KeepAliveArgs(name, image, c);
      var r := Interpret(s, cmd);
      Effect(r.state, [PsNames(false), PsNames(true), cmd], r.ok)
  }

  method EnsureContainerRunningExact(d: Docker, c: ContainerDefinition, name: string, image: string) returns (err: Option<CmdError>)
    modifies d
    ensures var e := EnsureRunningExact(old(d.state), name, image, c);
      d.state == e.state && d.log == old(d.log) + e.calls && (err.None? <==> e.ok)
  {
    ghost var s0 := d.state;
    ghost var log0 := d.log;
    var running := ListedExactly(d, false, name);
    if running {
      return None;
    }
    var exists_ := ListedExactly(d, true, name);
    err := StartOrCreate(d, c, name, image, exists_);
    LogAssoc(log0 + [PsNames(false)], [PsNames(true)], d.log[|log0| + 2..]);
    assert d.log == log0 + [PsNames(false), PsNames(true)] + d.log[|log0| + 2..];
  }

  /** A start when the container exists, a create otherwise. */
  method StartOrCreate(d: Docker, c: ContainerDefinition, name: string, image: string, exists_: bool) returns (err: Option<CmdError>)
    modifies d
    ensures var cmd := if exists_ then ["start", name] else KeepAliveArgs(name, image, c);
      var r := Interpret(old(d.state), cmd);
      d.state == r.state && d.log == old(d.log) + [cmd] && (err.None? <==> r.ok)
  {
    if exists_ {
      err := Issue(d, ["start", name]);
    } else {
      err := CreateKeepAlive(d, c, name, image);
    }
  }

  /** One listing, searched for a line that is exactly the name. */
  method ListedExactly(d: Docker, all: bool, name: string) returns (listed: bool)
    modifies d
    ensures listed == ListsExactly(old(d.state), all, name)
    ensures d.state == old(d.state) && d.log == old(d.log) + [PsNames(all)]
  {
    var ok, out := d.Invoke(PsNames(all));
    listed := ok && name != "" && name in Split(out, '\n');
  }

  /** Among containers with distinct names, the one found is the only one of that name. */
  lemma FindUnique(cs: seq<Instance>, name: string)
    requires UniqueNames(cs) && Find(cs, name).Some?
    ensures Has(Running(cs), name) <==> Find(cs, name).value.running
  {
    var c := Find(cs, name).value;
    if Has(Running(cs), name) {
      var run := Running(cs);
      var k :| 0 <= k < |run| && run[k].name == name;
      assert run[k] in run;
      var i :| 0 <= i < |cs| && cs[i] == run[k];
      var j :| 0 <= j < |cs| && cs[j] == c;
      assert i == j;
    }
    if c.running {
      assert c in Running(cs);
      var run := Running(cs);
      var k :| 0 <= k < |run| && run[k] == c;
    }
  }

  /**
   * With exact-line queries, on a reachable daemon whose containers have
   * distinct single-line names and an image that is present or pullable,
   * the container ends up running: created with the requested image when
   * it was absent, or the same container started.
   */
  lemma EnsureRunningExactRuns(s: State, name: string, image: string, c: ContainerDefinition)
    requires !s.down && name != "" && PlainNames(s.containers) && UniqueNames(s.containers)
    requires (image in s.images || image in s.registry) && !IsFlag(image)
    ensures var e := EnsureRunningExact(s, name, image, c);
      e.ok && Find(e.state.containers, name).Some? && Find(e.state.containers, name).value.running
      && (Find(s.containers, name).Some? ==> Find(e.state.containers, name).value.image == Find(s.containers, name).value.image)
      && (Find(s.containers, name).None? ==> Find(e.state.containers, name).value.image == image)
  {
    ListsExactlyAll(s, name);
    ListsExactlyRunning(s, name);
    if Has(s.containers, name) {
      FindUnique(s.containers, name);
      if !ListsExactly(s, false, name) {
        StartEffect(s, name);
        FindWithRunning(s.containers, name, true, name);
      }
    } else {
      KeepAliveRun(s, name, image, c);
    }
  }

  /** ExecuteCommand's exec arguments: `-it` on a terminal, else `-i`; `--workdir` when set; then the container, the command and its arguments. */
  function ExecArgsFor(c: ContainerDefinition, fullName: string, command: string, args: seq<string>, terminal: bool): seq<string> {
    ["exec", if terminal then "-it" else "-i"]
    + (WorkDirFlags("--workdir", c.workDir) + ([fullName, command] + args))
  }

  /** docker's parser finds the container ExecuteCommand names, whatever the flags. */
  lemma ExecArgsForTarget(c: ContainerDefinition, fullName: string, command: string, args: seq<string>, terminal: bool)
    requires !IsFlag(fullName)
    ensures var a := ExecArgsFor(c, fullName, command, args, terminal);
      IsQuery(a) && ExecTarget(a[1..]) == Some(fullName)
      && (a[1] == "-it" <==> terminal)
      && a[|a| - |args| - 2..] == [fullName, command] + args
  {
    var a := ExecArgsFor(c, fullName, command, args, terminal);
    var w := WorkDirFlags("--workdir", c.workDir) + ([fullName, command] + args);
    if c.workDir != "" {
      assert w[0] == "--workdir" && IsFlag(w[0]) && w[2..] == [fullName, command] + args;
    }
    assert ExecTarget(w) == Some(fullName);
    assert a[1..] == [a[1]] + w;
    assert IsFlag(a[1]) && !(a[1] in {"-w", "--workdir"});
  }

  /**
   * ExecuteCommand: the container is made to run first; exec is issued
   * only when that succeeded. `terminal` is whether standard input is a
   * terminal.
   */
  function Execute(s: State, c: ContainerDefinition, containerName: string, image: string, command: string,
                   args: seq<string>, terminal: bool): Effect
  {
    var full := FullName(containerName);
    var e := EnsureRunning(s, full, image, c);
    if !e.ok then e
    else
      var cmd := ExecArgsFor(c, full, command, args, terminal);
      var r := Interpret(e.state, cmd);
      Effect(r.state, e.calls + [cmd], r.ok)
  }

  lemma ExecArgsAppended(head: seq<string>, c: ContainerDefinition, fullName: string, command: string, args: seq<string>, terminal: bool)
    requires head == ["exec", if terminal then "-it" else "-i"]
    ensures head + WorkDirFlags("--workdir", c.workDir) + [fullName, command] + args == ExecArgsFor(c, fullName, command, args, terminal)
  {
    var w := WorkDirFlags("--workdir", c.workDir);
    assert head + w + [fullName, command] + args == head + (w + ([fullName, command] + args));
  }

  method ExecuteCommand(d: Docker, c: ContainerDefinition, containerName: string, image: string, command: string,
                        args: seq<string>, terminal: bool) returns (err: Option<CmdError>)
    modifies d
    ensures var e := Execute(old(d.state), c, containerName, image, command, args, terminal);
      d.state == e.state && d.log == old(d.log) + e.calls && (err.None? <==> e.ok)
  {
    ghost var s0, log0 := d.state, d.log;
    var containerFullName := FullName(containerName);
    err := EnsureContainerRunning(d, c, containerFullName, image);
    if err.Some? {
      return;
    }
    ghost var e0 := EnsureRunning(s0, containerFullName, image, c);
    err := ExecIn(d, c, containerFullName, command, args, terminal);
    LogAssoc(log0, e0.calls, [ExecArgsFor(c, containerFullName, command, args, terminal)]);
  }

  /** The exec step of ExecuteCommand, once the container runs. */
  method ExecIn(d: Docker, c: ContainerDefinition, containerFullName: string, command: string,
                args: seq<string>, terminal: bool) returns (err: Option<CmdError>)
    modifies d
    ensures var r := Interpret(old(d.state), ExecArgsFor(c, containerFullName, command, args, terminal));
      d.state == r.state && d.log == old(d.log) + [ExecArgsFor(c, containerFullName, command, args, terminal)]
      && (err.None? <==> r.ok)
  {
    var dockerArgs := ["exec"];
    if terminal {
      dockerArgs := dockerArgs + ["-it"];
    } else {
      dockerArgs := dockerArgs + ["-i"];
    }
    ghost var head := dockerArgs;
    if c.workDir != "" {
      dockerArgs := dockerArgs + ["--workdir", c.workDir];
    }
    dockerArgs := dockerArgs + [containerFullName, command];
    dockerArgs := dockerArgs + args;
    assert dockerArgs == head + WorkDirFlags("--workdir", c.workDir) + [containerFullName, command] + args;
    ExecArgsAppended(head, c, containerFullName, command, args, terminal);
    err := Issue(d, dockerArgs);
  }

  /**
   * The exec invocation comes last and only after the container was made
   * to run; the command then succeeds exactly when the container
   * `yourpm-name` is running at that point, and exec changes nothing.
   */
  lemma ExecuteAfterEnsure(s: State, c: ContainerDefinition, containerName: string, image: string, command: string,
                           args: seq<string>, terminal: bool)
    ensures var full := FullName(containerName);
      var e0 := EnsureRunning(s, full, image, c);
      var e := Execute(s, c, containerName, image, command, args, terminal);
      (!e0.ok ==> e == e0)
      && (e0.ok ==> (e.calls == e0.calls + [ExecArgsFor(c, full, command, args, terminal)] && e.state == e0.state
                     && (e.ok <==> !e0.state.down && Find(e0.state.containers, full).Some? && Find(e0.state.containers, full).value.running)))
  {
    var full := FullName(containerName);
    var e0 := EnsureRunning(s, full, image, c);
    if e0.ok {
      assert full[0] == 'y' && !IsFlag(full);
      ExecArgsForTarget(c, full, command, args, terminal);
      var cmd := ExecArgsFor(c, full, command, args, terminal);
      assert cmd[0] == "exec";
    }
  }
}

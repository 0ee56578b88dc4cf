/**
 * The container runtime the package manager drives through the `docker`
 * command line: its containers and images, and what each invocation the
 * code issues does to them and prints. Invocations are argument lists
 * (without the leading "docker"); `Interpret` is the one definition of
 * their effect, and the `Docker` class keeps the state together with the
 * log of every invocation, so that the reconcilers can be judged by the
 * commands they issue.
 */
module Engine {
  import opened Wrappers
  import opened Strings

  datatype Instance = Instance(name: string, image: string, running: bool)

  /**
   * Containers newest first (the order `docker ps` lists them), the images
   * present locally, the images a pull can fetch, and whether the daemon
   * is unreachable (every invocation then fails).
   */
  datatype State = State(containers: seq<Instance>, images: set<string>, registry: set<string>, down: bool)

  type Cmd = seq<string>

  datatype Response = Response(state: State, ok: bool, out: string)

  const NamesFormat: string := "{{.Names}}"
  const RowFormat: string := "{{.Names}}|{{.Status}}|{{.Image}}"
  const ImageFormat: string := "{{.Config.Image}}"

  function Names(cs: seq<Instance>): (r: seq<string>)
    ensures |r| == |cs| && forall i | 0 <= i < |cs| :: r[i] == cs[i].name
  {
    if cs == [] then [] else [cs[0].name] + Names(cs[1..])
  }

  function Running(cs: seq<Instance>): (r: seq<Instance>)
    ensures forall c :: c in r <==> c in cs && c.running
  {
    if cs == [] then []
    else if cs[0].running then [cs[0]] + Running(cs[1..])
    else Running(cs[1..])
  }

  /** docker's `name=` filter: the name contains the given text. */
  function Matching(cs: seq<Instance>, f: string): (r: seq<Instance>)
    ensures forall c :: c in r <==> c in cs && Contains(c.name, f)
  {
    if cs == [] then []
    else if Contains(cs[0].name, f) then [cs[0]] + Matching(cs[1..], f)
    else Matching(cs[1..], f)
  }

  /** `--format {{.Names}}`: one name per line. */
  function Listing(names: seq<string>): string {
    if names == [] then "" else names[0] + "\n" + Listing(names[1..])
  }

  function StatusText(c: Instance): string {
    if c.running then "Up" else "Exited"
  }

  function Row(c: Instance): string {
    c.name + "|" + StatusText(c) + "|" + c.image
  }

  /** `--format {{.Names}}|{{.Status}}|{{.Image}}`: one row per line. */
  function Rows(cs: seq<Instance>): string {
    if cs == [] then "" else Row(cs[0]) + "\n" + Rows(cs[1..])
  }

  predicate Has(cs: seq<Instance>, n: string) {
    exists i | 0 <= i < |cs| :: cs[i].name == n
  }

  predicate UniqueNames(cs: seq<Instance>) {
    forall i, j | 0 <= i < j < |cs| :: cs[i].name != cs[j].name
  }

  function Find(cs: seq<Instance>, n: string): (r: Option<Instance>)
    ensures r.None? <==> !Has(cs, n)
    ensures r.Some? ==> r.value in cs && r.value.name == n
  {
    if cs == [] then None
    else if cs[0].name == n then Some(cs[0])
    else
      assert Has(cs, n) <==> Has(cs[1..], n) by {
        assert forall i | 1 <= i < |cs| :: cs[i] == cs[1..][i - 1];
      }
      Find(cs[1..], n)
  }

  function Without(cs: seq<Instance>, n: string): (r: seq<Instance>)
    ensures forall c :: c in r <==> c in cs && c.name != n
    ensures |r| <= |cs|
    ensures UniqueNames(cs) ==> UniqueNames(r)
  {
    if cs == [] then []
    else
      assert UniqueNames(cs) ==> UniqueNames(cs[1..]) && forall c | c in cs[1..] :: c.name != cs[0].name;
      if cs[0].name == n then Without(cs[1..], n)
      else
        var rest := Without(cs[1..], n);
        assert forall j | 0 <= j < |rest| :: rest[j] in rest;
        [cs[0]] + rest
  }

  function WithRunning(cs: seq<Instance>, n: string, running: bool): (r: seq<Instance>)
    ensures Names(r) == Names(cs)
    ensures forall i | 0 <= i < |cs| :: r[i] == if cs[i].name == n then cs[i].(running := running) else cs[i]
  {
    if cs == [] then []
    else [if cs[0].name == n then cs[0].(running := running) else cs[0]] + WithRunning(cs[1..], n, running)
  }

  /** An option word, as docker's argument parser sees it. */
  predicate IsFlag(a: string) {
    |a| > 0 && a[0] == '-'
  }

  /** The image of `docker run` after `--name n`: the first word that is not an option or an option's value. */
  function RunImage(rest: seq<string>): Option<string>
    decreases |rest|
  {
    if rest == [] then None
    else if !IsFlag(rest[0]) then Some(rest[0])
    else if rest[0] in {"--entrypoint", "-v", "-w", "--name"} then
      if |rest| < 2 then None else RunImage(rest[2..])
    else RunImage(rest[1..])
  }

  /** The container of `docker exec`: the first word that is not an option or an option's value. */
  function ExecTarget(rest: seq<string>): Option<string>
    decreases |rest|
  {
    if rest == [] then None
    else if !IsFlag(rest[0]) then Some(rest[0])
    else if rest[0] in {"-w", "--workdir"} then
      if |rest| < 2 then None else ExecTarget(rest[2..])
    else ExecTarget(rest[1..])
  }

  datatype PsQuery = PsQuery(all: bool, filter: Option<string>, format: string)

  /** The forms of `docker ps` the code issues. */
  function ParsePs(cmd: Cmd): Option<PsQuery> {
    if |cmd| == 3 && cmd[0] == "ps" && cmd[1] == "--format" then
      Some(PsQuery(false, None, cmd[2]))
    else if |cmd| == 4 && cmd[..3] == ["ps", "-a", "--format"] then
      Some(PsQuery(true, None, cmd[3]))
    else if |cmd| == 5 && cmd[0] == "ps" && cmd[1] == "--format" && cmd[3] == "--filter" && HasPrefix(cmd[4], "name=") then
      Some(PsQuery(false, Some(cmd[4][5..]), cmd[2]))
    else if |cmd| == 6 && cmd[..3] == ["ps", "-a", "--format"] && cmd[4] == "--filter" && HasPrefix(cmd[5], "name=") then
      Some(PsQuery(true, Some(cmd[5][5..]), cmd[3]))
    else if |cmd| == 6 && cmd[..3] == ["ps", "-a", "--filter"] && HasPrefix(cmd[3], "name=") && cmd[4] == "--format" then
      Some(PsQuery(true, Some(cmd[3][5..]), cmd[5]))
    else None
  }

  function Ps(s: State, q: PsQuery): Response {
    var cs := if q.all then s.containers else Running(s.containers);
    var shown := if q.filter.Some? then Matching(cs, q.filter.value) else cs;
    if q.format == NamesFormat then Response(s, true, Listing(Names(shown)))
    else if q.format == RowFormat then Response(s, true, Rows(shown))
    else Response(s, false, "")
  }

  /** Invocations that only report: listing, inspecting, and exec (whose effect inside a container is not modelled). */
  predicate IsQuery(cmd: Cmd) {
    |cmd| > 0 && (cmd[0] in {"ps", "inspect", "exec"} || (|cmd| > 1 && cmd[0] == "image" && cmd[1] == "inspect"))
  }

  function Fail(s: State): Response {
    Response(s, false, "")
  }

  /** `docker run -d --name n rest`: a fresh running container, the image pulled if need be. */
  function RunContainer(s: State, n: string, rest: seq<string>): (r: Response)
    ensures !r.ok ==> r.state == s
    ensures UniqueNames(s.containers) ==> UniqueNames(r.state.containers)
  {
    match RunImage(rest)
    case None => Fail(s)
    case Some(img) =>
      if Has(s.containers, n) || (img !in s.images && img !in s.registry) then Fail(s)
      else
        var cs := [Instance(n, img, true)] + s.containers;
        assert UniqueNames(s.containers) ==> UniqueNames(cs) by {
          if UniqueNames(s.containers) {
            forall i, j | 0 <= i < j < |cs| ensures cs[i].name != cs[j].name {
              assert cs[j] == s.containers[j - 1];
              if i > 0 {
                assert cs[i] == s.containers[i - 1];
              }
            }
          }
        }
        Response(s.(containers := cs, images := s.images + {img}), true, "")
  }

  /** `docker start`, `docker stop` and `docker rm -f` of one container. */
  function Lifecycle(s: State, verb: string, n: string): (r: Response)
    ensures !r.ok ==> r.state == s
    ensures UniqueNames(s.containers) ==> UniqueNames(r.state.containers)
  {
    if !Has(s.containers, n) then Fail(s)
    else if verb == "start" then Response(s.(containers := WithRunning(s.containers, n, true)), true, "")
    else if verb == "stop" then Response(s.(containers := WithRunning(s.containers, n, false)), true, "")
    else Response(s.(containers := Without(s.containers, n)), true, "")
  }

  /** The reporting invocations; none changes the runtime. */
  function Query(s: State, cmd: Cmd): (r: Response)
    requires |cmd| > 0
    ensures r.state == s
  {
    if cmd[0] == "ps" then
      match ParsePs(cmd)
      case Some(q) => Ps(s, q)
      case None => Fail(s)
    else if cmd[0] == "exec" then
      match ExecTarget(cmd[1..])
      case Some(n) =>
        var c := Find(s.containers, n);
        if c.Some? && c.value.running then Response(s, true, "") else Fail(s)
      case None => Fail(s)
    else if |cmd| == 4 && cmd[..3] == ["inspect", "--format", ImageFormat] then
      match Find(s.containers, cmd[3])
      case Some(c) => Response(s, true, c.image + "\n")
      case None => Fail(s)
    else if |cmd| == 3 && cmd[..2] == ["image", "inspect"] then
      if cmd[2] in s.images then Response(s, true, "") else Fail(s)
    else Fail(s)
  }

  /** `docker pull` and `docker image prune`. */
  function ImageCommand(s: State, cmd: Cmd): (r: Response)
    ensures r.state.containers == s.containers
    ensures !r.ok ==> r.state == s
  {
    if |cmd| == 2 && cmd[0] == "pull" then
      if cmd[1] in s.registry then Response(s.(images := s.images + {cmd[1]}), true, "") else Fail(s)
    else if cmd == ["image", "prune", "-f"] then
      Response(s, true, "")
    else if cmd == ["image", "prune", "-f", "-a"] || cmd == ["image", "prune", "-a", "-f"] then
      Response(s.(images := set i | i in s.images && exists c | c in s.containers :: c.image == i), true, "")
    else Fail(s)
  }

  /** What one `docker` invocation does to the runtime and prints. */
  function Interpret(s: State, cmd: Cmd): (r: Response)
    ensures s.down ==> r == Fail(s)
    ensures !r.ok ==> r.state == s
    ensures IsQuery(cmd) ==> r.state == s
    ensures UniqueNames(s.containers) ==> UniqueNames(r.state.containers)
  {
    if s.down || cmd == [] then Fail(s)
    else if IsQuery(cmd) then Query(s, cmd)
    else if |cmd| == 2 && (cmd[0] == "start" || cmd[0] == "stop") then Lifecycle(s, cmd[0], cmd[1])
    else if |cmd| == 3 && cmd[0] == "rm" && cmd[1] == "-f" then Lifecycle(s, "rm", cmd[2])
    else if |cmd| >= 4 && cmd[..3] == ["run", "-d", "--name"] then RunContainer(s, cmd[3], cmd[4..])
    else ImageCommand(s, cmd)
  }

  /** The docker daemon as the program sees it, with the log of every invocation. */
  class Docker {
    var state: State
    var log: seq<Cmd>

    constructor (s: State)
      ensures state == s && log == []
    {
      state := s;
      log := [];
    }

    method Invoke(cmd: Cmd) returns (ok: bool, out: string)
      modifies this
      ensures var r := Interpret(old(state), cmd);
        state == r.state && ok == r.ok && out == r.out
      ensures log == old(log) + [cmd]
    {
      var r := Interpret(state, cmd);
      state, ok, out := r.state, r.ok, r.out;
      log := log + [cmd];
    }
  }

  /** Every container name appears in the name listing. */
  lemma {:induction false} ListingShowsNames(names: seq<string>, k: nat)
    requires k < |names|
    ensures Contains(Listing(names), names[k])
    decreases k
  {
    var l := Listing(names);
    if k == 0 {
      assert OccursAt(l, names[0], 0);
    } else {
      ListingShowsNames(names[1..], k - 1);
      var rest := Listing(names[1..]);
      var i :| 0 <= i <= |rest| - |names[k]| && OccursAt(rest, names[k], i);
      var off := |names[0]| + 1;
      assert l == names[0] + "\n" + rest;
      assert l[off + i..off + i + |names[k]|] == rest[i..i + |names[k]|];
      assert OccursAt(l, names[k], off + i);
    }
  }
  /**
   * What a sequence of invocations came to: the runtime afterwards, the
   * invocations issued in order, and whether the operation succeeded.
   */
  datatype Effect = Effect(state: State, calls: seq<Cmd>, ok: bool)

  /** The invocations among `calls` that may change the runtime, in order. */
  function Mutations(calls: seq<Cmd>): (r: seq<Cmd>)
    ensures |r| <= |calls|
    ensures forall c :: c in r <==> c in calls && !IsQuery(c)
  {
    if calls == [] then []
    else (if IsQuery(calls[0]) then [] else [calls[0]]) + Mutations(calls[1..])
  }

  /** Starting or stopping `n` changes only `n`'s running flag. */
  lemma {:induction false} FindWithRunning(cs: seq<Instance>, n: string, b: bool, m: string)
    ensures m != n ==> Find(WithRunning(cs, n, b), m) == Find(cs, m)
    ensures m == n ==> (Find(WithRunning(cs, n, b), m) ==
      if Find(cs, n).Some? then Some(Find(cs, n).value.(running := b)) else None)
    decreases |cs|
  {
    if cs != [] {
      FindWithRunning(cs[1..], n, b, m);
      assert WithRunning(cs, n, b)[1..] == WithRunning(cs[1..], n, b);
    }
  }

  /** Removing `n` leaves every other container where it was. */
  lemma {:induction false} FindWithout(cs: seq<Instance>, n: string, m: string)
    ensures Find(Without(cs, n), m) == if m == n then None else Find(cs, m)
    decreases |cs|
  {
    if cs != [] {
      FindWithout(cs[1..], n, m);
    }
  }

  /** The name listing is the names, each ended by a newline. */
  lemma {:induction false} ListingJoin(names: seq<string>)
    ensures Listing(names) == Join(names + [""], "\n")
    decreases |names|
  {
    if names != [] {
      ListingJoin(names[1..]);
      var parts := names + [""];
      assert parts[1..] == names[1..] + [""];
      assert |parts| >= 2 && parts[0] == names[0];
    }
  }

  /** Split at newlines, the listing gives back the names and an empty last line. */
  lemma ListingLines(names: seq<string>)
    requires forall i | 0 <= i < |names| :: '\n' !in names[i]
    ensures Split(Listing(names), '\n') == names + [""]
  {
    ListingJoin(names);
    var parts := names + [""];
    assert forall i | 0 <= i < |parts| :: '\n' !in parts[i] by {
      forall i | 0 <= i < |parts| ensures '\n' !in parts[i] {
        if i < |names| { assert parts[i] == names[i]; }
      }
    }
    SplitJoin(parts, '\n');
  }

  /** `docker rm -f n` removes every container named `n`, and fails, changing nothing, when there is none or the daemon is down. */
  lemma RmEffect(s: State, n: string)
    ensures Interpret(s, ["rm", "-f", n]) ==
      if s.down || !Has(s.containers, n) then Fail(s)
      else Response(s.(containers := Without(s.containers, n)), true, "")
  {
    var cmd := ["rm", "-f", n];
    assert !IsQuery(cmd) && cmd[0] != "start" && cmd[0] != "stop";
  }

  lemma {:induction false} MutationsAppend(a: seq<Cmd>, b: seq<Cmd>)
    ensures Mutations(a + b) == Mutations(a) + Mutations(b)
    decreases |a|
  {
    if a != [] {
      assert (a + b)[1..] == a[1..] + b && (a + b)[0] == a[0];
      MutationsAppend(a[1..], b);
      var h := if IsQuery(a[0]) then [] else [a[0]];
      assert Mutations(a + b) == h + (Mutations(a[1..]) + Mutations(b));
      assert h + (Mutations(a[1..]) + Mutations(b)) == (h + Mutations(a[1..])) + Mutations(b);
    } else {
      assert a + b == b;
    }
  }

  /** Logs grow by concatenation; regrouping a log keeps it the same. */
  lemma LogAssoc(a: seq<Cmd>, b: seq<Cmd>, c: seq<Cmd>)
    ensures a + b + c == a + (b + c)
  {
  }
}

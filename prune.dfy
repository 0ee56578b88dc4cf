/**
 * The prune service of pkg/prune/prune.go: remove the package manager's
 * containers, keeping (unless aggressive) the configured ones the runtime
 * reports running, and prune images. Each operation is a function giving
 * the runtime afterwards and the invocations issued, and a method of
 * `PruneService` proved to do exactly that.
 */
module Prune {
  import opened Wrappers
  import opened Engine
  import opened DockerClient
  import Config
  import Containers

  /** The listing both container prunes ask for: every container whose name contains "yourpm-". */
  const ListManaged: Cmd := ListArgs(true, Some("yourpm-"))

  function RemoveCmd(name: string): Cmd {
    ["rm", "-f", name]
  }

  /** The removals of the listed containers, one each, in listing order. */
  function Removals(cs: seq<Container>): (r: seq<Cmd>)
    ensures |r| == |cs| && forall i | 0 <= i < |cs| :: r[i] == RemoveCmd(cs[i].name)
  {
    if cs == [] then [] else Removals(cs[..|cs| - 1]) + [RemoveCmd(cs[|cs| - 1].name)]
  }

  /** The container names a configuration protects; without one, none. */
  function Protected(cfg: Option<Config.Config>): (r: set<string>)
    ensures cfg.None? ==> r == {}
    ensures cfg.Some? ==> forall c | c in cfg.value.containers :: Containers.FullName(c) in r
    ensures forall n | n in r :: cfg.Some? && exists c | c in cfg.value.containers :: n == Containers.FullName(c)
  {
    if cfg.None? then {} else set c | c in cfg.value.containers :: Containers.FullName(c)
  }

  /** The loop that collects `yourpm-<name>` for every configured container. */
  method ProtectedNames(cfg: Option<Config.Config>) returns (names: set<string>)
    ensures names == Protected(cfg)
  {
    names := {};
    if cfg.Some? {
      var keys := cfg.value.containers.Keys;
      while keys != {}
        invariant keys <= cfg.value.containers.Keys
        invariant names == set c | c in cfg.value.containers.Keys - keys :: Containers.FullName(c)
        decreases keys
      {
        var c :| c in keys;
        names := names + {Containers.FullName(c)};
        keys := keys - {c};
      }
    }
  }

  /** Whether a listed container stays: not aggressive, protected, and reported running. */
  predicate Keep(aggressive: bool, protected: set<string>, name: string, running: bool) {
    !aggressive && name in protected && running
  }

  /**
   * One turn of the loop of PruneContainers: a protected container is
   * asked about first (unless aggressive); whatever is not kept gets one
   * `rm -f`, whose failure is only reported.
   */
  function PruneOne(s: State, name: string, aggressive: bool, protected: set<string>): Effect {
    if !aggressive && name in protected then
      if Reports(s, false, name) then Effect(s, [PsNames(false)], true)
      else
        var r := Interpret(s, RemoveCmd(name));
        Effect(r.state, [PsNames(false), RemoveCmd(name)], r.ok)
    else
      var r := Interpret(s, RemoveCmd(name));
      Effect(r.state, [RemoveCmd(name)], r.ok)
  }

  /** The loop of PruneContainers over the listed containers, in order. */
  function PruneEach(s: State, cs: seq<Container>, aggressive: bool, protected: set<string>): Effect
    decreases |cs|
  {
    if cs == [] then Effect(s, [], true)
    else
      var prev := PruneEach(s, cs[..|cs| - 1], aggressive, protected);
      var step := PruneOne(prev.state, cs[|cs| - 1].name, aggressive, protected);
      Effect(step.state, prev.calls + step.calls, true)
  }

  /** PruneContainers: an error only when the listing fails. */
  function PruneOutcome(s: State, aggressive: bool, cfg: Option<Config.Config>): Effect {
    var q := Interpret(s, ListManaged);
    if !q.ok then Effect(s, [ListManaged], false)
    else
      var e := PruneEach(s, ParsedList(q.out), aggressive, Protected(cfg));
      Effect(e.state, [ListManaged] + e.calls, true)
  }

  /** The loop of PruneAllContainers: remove every listed container. */
  function RemoveEach(s: State, cs: seq<Container>): Effect
    decreases |cs|
  {
    if cs == [] then Effect(s, [], true)
    else
      var prev := RemoveEach(s, cs[..|cs| - 1]);
      var r := Interpret(prev.state, RemoveCmd(cs[|cs| - 1].name));
      Effect(r.state, prev.calls + [RemoveCmd(cs[|cs| - 1].name)], true)
  }

  function PruneAllOutcome(s: State): Effect {
    var q := Interpret(s, ListManaged);
    if !q.ok then Effect(s, [ListManaged], false)
    else
      var e := RemoveEach(s, ParsedList(q.out));
      Effect(e.state, [ListManaged] + e.calls, true)
  }

  lemma PruneEachStep(s: State, cs: seq<Container>, i: nat, aggressive: bool, protected: set<string>)
    requires i < |cs|
    ensures var prev := PruneEach(s, cs[..i], aggressive, protected);
      var step := PruneOne(prev.state, cs[i].name, aggressive, protected);
      PruneEach(s, cs[..i + 1], aggressive, protected) == Effect(step.state, prev.calls + step.calls, true)
  {
    assert cs[..i + 1][..i] == cs[..i];
  }

  lemma RemoveEachStep(s: State, cs: seq<Container>, i: nat)
    requires i < |cs|
    ensures var prev := RemoveEach(s, cs[..i]);
      RemoveEach(s, cs[..i + 1]) == Effect(Interpret(prev.state, RemoveCmd(cs[i].name)).state, prev.calls + [RemoveCmd(cs[i].name)], true)
  {
    assert cs[..i + 1][..i] == cs[..i];
  }

  /** The outcomes once the listing has worked: the loop's invocations after the listing. */
  lemma ListedOutcomes(s: State, aggressive: bool, cfg: Option<Config.Config>)
    requires Interpret(s, ListManaged).ok
    ensures var cs := ParsedList(Interpret(s, ListManaged).out);
      var e := PruneEach(s, cs, aggressive, Protected(cfg));
      var a := RemoveEach(s, cs);
      PruneOutcome(s, aggressive, cfg) == Effect(e.state, [ListManaged] + e.calls, true)
      && PruneAllOutcome(s) == Effect(a.state, [ListManaged] + a.calls, true)
  {
  }

  /** `xs` is `ys` with some elements left out, the rest in the same order. */
  predicate Subsequence(xs: seq<Cmd>, ys: seq<Cmd>)
    decreases |ys|
  {
    if xs == [] then true
    else if ys == [] then false
    else if xs[|xs| - 1] == ys[|ys| - 1] then Subsequence(xs[..|xs| - 1], ys[..|ys| - 1])
    else Subsequence(xs, ys[..|ys| - 1])
  }

  class PruneService {
    const docker: Docker

    constructor (docker: Docker)
      ensures this.docker == docker
    {
      this.docker := docker;
    }

    method PruneContainers(aggressive: bool, cfg: Option<Config.Config>) returns (err: Option<CmdError>)
      modifies docker
      ensures var e := PruneOutcome(old(docker.state), aggressive, cfg);
        docker.state == e.state && docker.log == old(docker.log) + e.calls && (err.None? <==> e.ok)
    {
      ghost var s0 := docker.state;
      var listed := ListContainers(docker, true, Some("yourpm-"));
      if listed.Err? {
        return Some(listed.error);
      }
      var containers := listed.value;
      ListedOutcomes(s0, aggressive, cfg);
      if |containers| == 0 {
        return None;
      }
      var configContainers := ProtectedNames(cfg);
      PruneListed(containers, aggressive, configContainers);
      LogAssoc(old(docker.log), [ListManaged], PruneEach(s0, containers, aggressive, configContainers).calls);
      return None;
    }

    /** The loop of PruneContainers over the listed containers. */
    method PruneListed(containers: seq<Container>, aggressive: bool, configContainers: set<string>)
      modifies docker
      ensures var e := PruneEach(old(docker.state), containers, aggressive, configContainers);
        docker.state == e.state && docker.log == old(docker.log) + e.calls
    {
      ghost var s0, log1 := docker.state, docker.log;
      var i := 0;
      while i < |containers|
        invariant 0 <= i <= |containers|
        invariant docker.state == PruneEach(s0, containers[..i], aggressive, configContainers).state
        invariant docker.log == log1 + PruneEach(s0, containers[..i], aggressive, configContainers).calls
      {
        ghost var prev := PruneEach(s0, containers[..i], aggressive, configContainers);
        PruneListedOne(containers[i].name, aggressive, configContainers);
        LogAssoc(log1, prev.calls, PruneOne(prev.state, containers[i].name, aggressive, configContainers).calls);
        PruneEachStep(s0, containers, i, aggressive, configContainers);
        i := i + 1;
      }
      assert containers[..|containers|] == containers;
    }

    /** The body of that loop for one listed container. */
    method PruneListedOne(name: string, aggressive: bool, configContainers: set<string>)
      modifies docker
      ensures var e := PruneOne(old(docker.state), name, aggressive, configContainers);
        docker.state == e.state && docker.log == old(docker.log) + e.calls
    {
      var shouldKeep := false;
      if !aggressive && name in configContainers {
        var running := IsRunning(docker, name);
        if running {
          shouldKeep := true;
        }
      }
      if !shouldKeep {
        var _ := Remove(docker, name);
      }
    }

    method PruneAllContainers() returns (err: Option<CmdError>)
      modifies docker
      ensures var e := PruneAllOutcome(old(docker.state));
        docker.state == e.state && docker.log == old(docker.log) + e.calls && (err.None? <==> e.ok)
    {
      ghost var s0 := docker.state;
      var listed := ListContainers(docker, true, Some("yourpm-"));
      if listed.Err? {
        return Some(listed.error);
      }
      var containers := listed.value;
      ListedOutcomes(s0, true, None);
      if |containers| == 0 {
        return None;
      }
      RemoveListed(containers);
      LogAssoc(old(docker.log), [ListManaged], RemoveEach(s0, containers).calls);
      return None;
    }

    /** The loop of PruneAllContainers. */
    method RemoveListed(containers: seq<Container>)
      modifies docker
      ensures var e := RemoveEach(old(docker.state), containers);
        docker.state == e.state && docker.log == old(docker.log) + e.calls
    {
      ghost var s0, log1 := docker.state, docker.log;
      var i := 0;
      while i < |containers|
        invariant 0 <= i <= |containers|
        invariant docker.state == RemoveEach(s0, containers[..i]).state
        invariant docker.log == log1 + RemoveEach(s0, containers[..i]).calls
      {
        ghost var prev := RemoveEach(s0, containers[..i]);
        var name := containers[i].name;
        var _ := Remove(docker, name);
        RemoveEachStep(s0, containers, i);
        LogAssoc(log1, prev.calls, [RemoveCmd(name)]);
        i := i + 1;
      }
      assert containers[..|containers|] == containers;
    }

    /** Dangling images only, or with `aggressive` every image no container uses. */
    method PruneImages(aggressive: bool) returns (err: Option<CmdError>)
      modifies docker
      ensures var r := Interpret(old(docker.state), PruneArgs(aggressive));
        docker.state == r.state && (err.None? <==> r.ok)
      ensures docker.log == old(docker.log) + [PruneArgs(aggressive)]
    {
      err := DockerClient.PruneImages(docker, aggressive);
    }
  }

  // ----- properties -----

  lemma CallsDiffer(n: string)
    ensures IsQuery(PsNames(false)) && !IsQuery(RemoveCmd(n)) && PsNames(false) != RemoveCmd(n)
  {
    assert PsNames(false)[0][0] == 'p' && RemoveCmd(n)[0][0] == 'r';
  }

  /**
   * One container: a protected one is asked about (unless aggressive), and
   * it gets its single `rm -f` exactly when it is not kept.
   */
  lemma PruneOneCalls(s: State, n: string, aggressive: bool, protected: set<string>)
    ensures var st := PruneOne(s, n, aggressive, protected);
      var keep := Keep(aggressive, protected, n, Reports(s, false, n));
      Mutations(st.calls) == (if keep then [] else [RemoveCmd(n)])
      && (forall c | c in st.calls :: c == PsNames(false) || c == RemoveCmd(n))
      && (PsNames(false) in st.calls <==> !aggressive && n in protected)
      && (RemoveCmd(n) in st.calls <==> !keep)
  {
    CallsDiffer(n);
    var st := PruneOne(s, n, aggressive, protected);
    if !aggressive && n in protected && !Reports(s, false, n) {
      assert st.calls[1..] == [RemoveCmd(n)];
    }
  }

  /** ... only a container of that name can go, and nothing but containers changes. */
  lemma PruneOneState(s: State, n: string, aggressive: bool, protected: set<string>)
    ensures var st := PruneOne(s, n, aggressive, protected);
      var keep := Keep(aggressive, protected, n, Reports(s, false, n));
      st.state == s.(containers := st.state.containers)
      && (!s.down ==> forall c :: c in st.state.containers <==> c in s.containers && (keep || c.name != n))
  {
    RmEffect(s, n);
  }

  lemma {:induction false} SubsequenceDropLast(xs: seq<Cmd>, ys: seq<Cmd>)
    requires xs != [] && Subsequence(xs, ys)
    ensures Subsequence(xs[..|xs| - 1], ys)
    decreases |ys|
  {
    var xs', ys' := xs[..|xs| - 1], ys[..|ys| - 1];
    if xs[|xs| - 1] != ys[|ys| - 1] {
      SubsequenceDropLast(xs, ys');
    }
    if xs' != [] && xs'[|xs'| - 1] == ys[|ys| - 1] {
      SubsequenceDropLast(xs', ys');
    }
  }

  lemma SubsequenceExtend(xs: seq<Cmd>, ys: seq<Cmd>, y: Cmd)
    requires Subsequence(xs, ys)
    ensures Subsequence(xs, ys + [y]) && Subsequence(xs + [y], ys + [y])
  {
    assert (ys + [y])[..|ys|] == ys;
    assert (xs + [y])[..|xs|] == xs;
    if xs != [] && xs[|xs| - 1] == y {
      SubsequenceDropLast(xs, ys);
    }
  }

  /**
   * The loop removes at most once per listed container and in listing
   * order, and a failed removal does not stop it.
   */
  lemma {:induction false} PruneEachSubsequence(s: State, cs: seq<Container>, aggressive: bool, protected: set<string>)
    ensures Subsequence(Mutations(PruneEach(s, cs, aggressive, protected).calls), Removals(cs))
    decreases |cs|
  {
    if cs != [] {
      var init, n := cs[..|cs| - 1], cs[|cs| - 1].name;
      PruneEachSubsequence(s, init, aggressive, protected);
      var prev := PruneEach(s, init, aggressive, protected);
      var st := PruneOne(prev.state, n, aggressive, protected);
      PruneOneCalls(prev.state, n, aggressive, protected);
      MutationsAppend(prev.calls, st.calls);
      SubsequenceExtend(Mutations(prev.calls), Removals(init), RemoveCmd(n));
      assert Mutations(st.calls) == [] ==> Mutations(prev.calls) + Mutations(st.calls) == Mutations(prev.calls);
    }
  }

  /** Besides the removals the loop only asks whether containers run. */
  lemma {:induction false} PruneEachCallForms(s: State, cs: seq<Container>, aggressive: bool, protected: set<string>)
    ensures forall c | c in PruneEach(s, cs, aggressive, protected).calls ::
      c == PsNames(false) || exists j | 0 <= j < |cs| :: c == RemoveCmd(cs[j].name)
    decreases |cs|
  {
    if cs != [] {
      var init, n := cs[..|cs| - 1], cs[|cs| - 1].name;
      PruneEachCallForms(s, init, aggressive, protected);
      var prev := PruneEach(s, init, aggressive, protected);
      var st := PruneOne(prev.state, n, aggressive, protected);
      PruneOneCalls(prev.state, n, aggressive, protected);
      forall c | c in prev.calls + st.calls
        ensures c == PsNames(false) || exists j | 0 <= j < |cs| :: c == RemoveCmd(cs[j].name)
      {
        if c in prev.calls && c != PsNames(false) {
          var j :| 0 <= j < |init| && c == RemoveCmd(init[j].name);
          assert init[j] == cs[j];
        } else if c == RemoveCmd(n) {
          assert c == RemoveCmd(cs[|cs| - 1].name);
        }
      }
    }
  }

  /** Aggressive, or with nothing protected, the loop is PruneAllContainers's: every listed container gets its `rm -f`. */
  lemma {:induction false} UnprotectedRemovesAll(s: State, cs: seq<Container>, aggressive: bool, protected: set<string>)
    requires aggressive || protected == {}
    ensures PruneEach(s, cs, aggressive, protected) == RemoveEach(s, cs)
    ensures RemoveEach(s, cs).calls == Removals(cs)
    decreases |cs|
  {
    if cs != [] {
      UnprotectedRemovesAll(s, cs[..|cs| - 1], aggressive, protected);
    }
  }

  /**
   * On a reachable daemon the loop leaves exactly the containers whose
   * name got no `rm -f`, and changes nothing else.
   */
  lemma {:induction false} PruneEachState(s: State, cs: seq<Container>, aggressive: bool, protected: set<string>)
    requires !s.down
    ensures var e := PruneEach(s, cs, aggressive, protected);
      e.state == s.(containers := e.state.containers)
      && forall c :: c in e.state.containers <==> c in s.containers && RemoveCmd(c.name) !in e.calls
    decreases |cs|
  {
    if cs != [] {
      var init, n := cs[..|cs| - 1], cs[|cs| - 1].name;
      PruneEachState(s, init, aggressive, protected);
      var prev := PruneEach(s, init, aggressive, protected);
      PruneOneCalls(prev.state, n, aggressive, protected);
      PruneOneState(prev.state, n, aggressive, protected);
      var st := PruneOne(prev.state, n, aggressive, protected);
      forall c: Instance
        ensures c in st.state.containers <==> c in s.containers && RemoveCmd(c.name) !in prev.calls + st.calls
      {
        assert RemoveCmd(c.name) in st.calls <==> RemoveCmd(c.name) == RemoveCmd(n) && RemoveCmd(n) in st.calls;
        assert RemoveCmd(c.name) == RemoveCmd(n) <==> c.name == n by {
          assert RemoveCmd(c.name)[2] == c.name;
        }
      }
    }
  }

  /**
   * With distinct listed names, container `i` gets its `rm -f` exactly
   * when it is not kept: when aggressive, unprotected, or not reported
   * running at the moment the loop asks.
   */
  lemma {:induction false} PruneEachDecides(s: State, cs: seq<Container>, aggressive: bool, protected: set<string>, i: nat)
    requires i < |cs|
    requires forall j, k | 0 <= j < k < |cs| :: cs[j].name != cs[k].name
    ensures var before := PruneEach(s, cs[..i], aggressive, protected).state;
      RemoveCmd(cs[i].name) in PruneEach(s, cs, aggressive, protected).calls
      <==> !Keep(aggressive, protected, cs[i].name, Reports(before, false, cs[i].name))
    decreases |cs|
  {
    var init, n := cs[..|cs| - 1], cs[|cs| - 1].name;
    var m := cs[i].name;
    PruneEachLastStep(s, cs, aggressive, protected, m);
    if i == |cs| - 1 {
      assert init == cs[..i];
      PruneEachCallForms(s, init, aggressive, protected);
      forall j | 0 <= j < |init|
        ensures RemoveCmd(m) != RemoveCmd(init[j].name)
      {
        assert RemoveCmd(init[j].name)[2] == init[j].name && init[j] == cs[j];
      }
      assert PsNames(false) != RemoveCmd(m) by {
        CallsDiffer(m);
      }
    } else {
      PruneEachDecides(s, init, aggressive, protected, i);
      assert init[..i] == cs[..i] && init[i] == cs[i];
    }
  }

  /** The last turn of the loop adds an `rm -f` only for the last listed name, and exactly when it is not kept. */
  lemma PruneEachLastStep(s: State, cs: seq<Container>, aggressive: bool, protected: set<string>, m: string)
    requires cs != []
    ensures var init, n := cs[..|cs| - 1], cs[|cs| - 1].name;
      var prev := PruneEach(s, init, aggressive, protected);
      RemoveCmd(m) in PruneEach(s, cs, aggressive, protected).calls
      <==> RemoveCmd(m) in prev.calls || (m == n && !Keep(aggressive, protected, n, Reports(prev.state, false, n)))
  {
    var init, n := cs[..|cs| - 1], cs[|cs| - 1].name;
    var prev := PruneEach(s, init, aggressive, protected);
    PruneOneCalls(prev.state, n, aggressive, protected);
    assert RemoveCmd(m) == RemoveCmd(n) <==> m == n by {
      assert RemoveCmd(m)[2] == m;
    }
  }

  /**
   * The whole of PruneContainers: an error exactly when the listing fails,
   * and then nothing else happens; an empty listing asks nothing more;
   * without a configuration, or aggressive, it is PruneAllContainers.
   */
  lemma PruneOutcomeCases(s: State, aggressive: bool, cfg: Option<Config.Config>)
    ensures var q := Interpret(s, ListManaged);
      var e := PruneOutcome(s, aggressive, cfg);
      (e.ok <==> q.ok)
      && (!q.ok ==> e.calls == [ListManaged] && e.state == s)
      && (q.ok && ParsedList(q.out) == [] ==> e.calls == [ListManaged] && e.state == s)
      && (aggressive || cfg.None? ==> e == PruneAllOutcome(s))
      && (q.ok ==> PruneAllOutcome(s).calls == [ListManaged] + Removals(ParsedList(q.out)))
  {
    var q := Interpret(s, ListManaged);
    if q.ok {
      var cs := ParsedList(q.out);
      UnprotectedRemovesAll(s, cs, true, Protected(cfg));
      if aggressive || cfg.None? {
        UnprotectedRemovesAll(s, cs, aggressive, Protected(cfg));
      }
    }
  }

  /**
   * On a reachable daemon PruneContainers leaves exactly the containers
   * whose name it issued no `rm -f` for, and touches no image.
   */
  lemma PruneOutcomeState(s: State, aggressive: bool, cfg: Option<Config.Config>)
    requires !s.down
    ensures var e := PruneOutcome(s, aggressive, cfg);
      e.state == s.(containers := e.state.containers)
      && forall c :: c in e.state.containers <==> c in s.containers && RemoveCmd(c.name) !in e.calls
  {
    var q := Interpret(s, ListManaged);
    if q.ok {
      var cs := ParsedList(q.out);
      PruneEachState(s, cs, aggressive, Protected(cfg));
      var e := PruneEach(s, cs, aggressive, Protected(cfg));
      forall c: Instance ensures RemoveCmd(c.name) in [ListManaged] + e.calls <==> RemoveCmd(c.name) in e.calls {
        assert ListManaged[0][0] == 'p' && RemoveCmd(c.name)[0][0] == 'r';
      }
    }
  }
}

/**
 * What the orphan sweep of pkg/symlinks/manager.go removes. Each decision
 * is taken on the tree as it stands when the loop reaches the entry, so
 * one removal can change a later decision; when no link in the profile
 * bin directory points below that directory, the decisions are
 * independent and the sweep removes exactly the entries the decision
 * selects on the tree it started from, which also makes it idempotent.
 */
module SymlinkLemmas {
  import opened Wrappers
  import opened Strings
  import opened Paths
  import opened Os
  import opened Symlinks

  /** No symbolic link in `t` points strictly below `d`. */
  predicate NoLinkInto(t: Tree, d: Path) {
    forall q | q in t && t[q].Link? :: !IsStrictPrefix(d, t[q].target)
  }

  /** Every path of `s` lies strictly below `d`. */
  predicate Under(s: set<Path>, d: Path) {
    forall x | x in s :: IsStrictPrefix(d, x)
  }

  /** The entries of the profile bin directory the decision selects on `t`. */
  function Doomed(t: Tree, baseDir: Path, active: set<string>): (r: set<Path>)
    ensures forall n :: ProfileBin(baseDir) + [n] in r <==> ShouldRemove(t, baseDir, n, active)
    ensures forall q | q in r ::
              q in t && t[q].Link? && |q| == |ProfileBin(baseDir)| + 1 && q == ProfileBin(baseDir) + [q[|ProfileBin(baseDir)|]]
  {
    var pb := ProfileBin(baseDir);
    var r := set q | q in t.Keys && |q| == |pb| + 1 && q[..|pb|] == pb && ShouldRemove(t, baseDir, q[|pb|], active);
    assert forall q | q in r :: q == pb + [q[|pb|]] by {
      forall q | q in r ensures q == pb + [q[|pb|]] {
        assert q == q[..|pb|] + [q[|pb|]];
      }
    }
    assert forall n :: (pb + [n])[..|pb|] == pb && (pb + [n])[|pb|] == n;
    r
  }

  /** The entries the sweep selects among `names`, each judged on `t`. */
  function Selected(t: Tree, baseDir: Path, names: seq<string>, active: set<string>): (r: set<Path>)
    ensures forall n :: ProfileBin(baseDir) + [n] in r <==> n in names && ShouldRemove(t, baseDir, n, active)
    ensures forall q | q in r :: |q| == |ProfileBin(baseDir)| + 1 && q == ProfileBin(baseDir) + [q[|ProfileBin(baseDir)|]]
    decreases |names|
  {
    var pb := ProfileBin(baseDir);
    if names == [] then {}
    else
      assert forall n :: (pb + [n])[|pb|] == n;
      assert forall n | n in names :: n == names[0] || n in names[1..];
      (if ShouldRemove(t, baseDir, names[0], active) then {pb + [names[0]]} else {})
      + Selected(t, baseDir, names[1..], active)
  }

  /**
   * Removing entries strictly below `d` does not change where a lookup
   * ends, as long as the lookup never starts below `d` and no link leads
   * there.
   */
  lemma {:induction false} ResolveFrame(t: Tree, s: set<Path>, d: Path, p: Path, hops: nat)
    requires Under(s, d) && NoLinkInto(t, d) && !IsStrictPrefix(d, p)
    ensures Resolve(t - s, p, hops) == Resolve(t, p, hops)
    decreases hops
  {
    forall k | 0 < k < |p|
      ensures p[..k] !in s
    {
      if |d| <= k {
        assert p[..k][..|d|] == p[..|d|];
      }
    }
    assert Blocked(t - s, p) == Blocked(t, p);
    if p != [] && p in t && t[p].Link? && hops > 0 {
      ResolveFrame(t, s, d, t[p].target, hops - 1);
    }
  }

  /**
   * Removing other entries of the profile bin directory leaves the
   * decision about `name` as it was.
   */
  lemma DecisionFrame(t: Tree, s: set<Path>, baseDir: Path, name: string, active: set<string>)
    requires Under(s, ProfileBin(baseDir)) && NoLinkInto(t, ProfileBin(baseDir))
    requires ProfileBin(baseDir) + [name] !in s
    ensures ShouldRemove(t - s, baseDir, name, active) == ShouldRemove(t, baseDir, name, active)
  {
    var pb := ProfileBin(baseDir);
    var p := pb + [name];
    if p in t && t[p].Link? {
      var target := t[p].target;
      ResolveFrame(t, s, pb, target, MaxSymlinkHops - 1);
      assert Stat(t, p) == Resolve(t, target, MaxSymlinkHops - 1);
      assert Stat(t - s, p) == Resolve(t - s, target, MaxSymlinkHops - 1);
      var store := StoreDir(baseDir);
      if IsPrefix(store, target) {
        var m := MarkerPath(store, target[|store|..]);
        assert m !in s;
      }
    }
  }

  lemma SortedDistinct(s: seq<string>)
    requires StrictlySorted(s)
    ensures forall i, j | 0 <= i < j < |s| :: s[i] != s[j]
  {
    forall i, j | 0 <= i < j < |s|
      ensures s[i] != s[j]
    {
      StrLtIrreflexive(s[i]);
    }
  }

  /**
   * The sweep over distinct names, started after `r` was removed, ends
   * with `r` and the entries selected on the original tree removed.
   */
  lemma {:induction false} SweepFrom(t: Tree, r: set<Path>, baseDir: Path, names: seq<string>, active: set<string>)
    requires Under(r, ProfileBin(baseDir)) && NoLinkInto(t, ProfileBin(baseDir))
    requires forall i | 0 <= i < |names| :: ProfileBin(baseDir) + [names[i]] !in r
    requires forall i, j | 0 <= i < j < |names| :: names[i] != names[j]
    ensures SweepNames(t - r, baseDir, names, active) == t - (r + Selected(t, baseDir, names, active))
    decreases |names|
  {
    var pb := ProfileBin(baseDir);
    if names == [] {
      assert r + {} == r;
    } else {
      var n := names[0];
      var p := pb + [n];
      DecisionFrame(t, r, baseDir, n, active);
      var r1 := if ShouldRemove(t, baseDir, n, active) then r + {p} else r;
      assert SweepOne(t - r, baseDir, n, active) == t - r1 by {
        if ShouldRemove(t, baseDir, n, active) {
          assert (t - r) - {p} == t - r1;
        }
      }
      SweepFromTail(r, baseDir, names, r1);
      SweepFrom(t, r1, baseDir, names[1..], active);
      assert r1 + Selected(t, baseDir, names[1..], active) == r + Selected(t, baseDir, names, active);
    }
  }

  /** The requirements of the sweep carry over to the rest of the names once the first one's entry may have been removed. */
  lemma SweepFromTail(r: set<Path>, baseDir: Path, names: seq<string>, r1: set<Path>)
    requires |names| > 0 && Under(r, ProfileBin(baseDir))
    requires r1 == r || r1 == r + {ProfileBin(baseDir) + [names[0]]}
    requires forall i | 0 <= i < |names| :: ProfileBin(baseDir) + [names[i]] !in r
    requires forall i, j | 0 <= i < j < |names| :: names[i] != names[j]
    ensures Under(r1, ProfileBin(baseDir))
    ensures forall i | 0 <= i < |names[1..]| :: ProfileBin(baseDir) + [names[1..][i]] !in r1
    ensures forall i, j | 0 <= i < j < |names[1..]| :: names[1..][i] != names[1..][j]
  {
    var pb := ProfileBin(baseDir);
    var p := pb + [names[0]];
    assert IsStrictPrefix(pb, p);
    forall i | 0 <= i < |names[1..]|
      ensures pb + [names[1..][i]] !in r1
    {
      assert names[1..][i] == names[i + 1];
      assert (pb + [names[i + 1]])[|pb|] != p[|pb|];
    }
    forall i, j | 0 <= i < j < |names[1..]|
      ensures names[1..][i] != names[1..][j]
    {
      assert names[1..][i] == names[i + 1] && names[1..][j] == names[j + 1];
    }
  }

  /** When nothing among `names` is selected, the sweep changes nothing. */
  lemma {:induction false} SweepNothingSelected(t: Tree, baseDir: Path, names: seq<string>, active: set<string>)
    requires forall i | 0 <= i < |names| :: !ShouldRemove(t, baseDir, names[i], active)
    ensures SweepNames(t, baseDir, names, active) == t
    decreases |names|
  {
    if names != [] {
      assert forall i | 0 <= i < |names[1..]| :: names[1..][i] == names[i + 1];
      SweepNothingSelected(t, baseDir, names[1..], active);
    }
  }

  /** In a valid tree only a real profile bin directory can hold selected entries. */
  lemma DoomedNeedsDir(t: Tree, baseDir: Path, active: set<string>)
    requires Valid(t)
    ensures Doomed(t, baseDir, active) != {} ==> Stat(t, ProfileBin(baseDir)) == Found(ProfileBin(baseDir), Dir)
  {
    var pb := ProfileBin(baseDir);
    var d := Doomed(t, baseDir, active);
    if d != {} {
      var q :| q in d;
      assert Parent(q) == pb;
    }
  }

  /** Over a listing of the whole directory, the selected entries are the doomed ones. */
  lemma SelectedIsDoomed(t: Tree, baseDir: Path, names: seq<string>, active: set<string>)
    requires forall n :: n in names <==> ProfileBin(baseDir) + [n] in t
    ensures Selected(t, baseDir, names, active) == Doomed(t, baseDir, active)
  {
    var pb := ProfileBin(baseDir);
    var sel := Selected(t, baseDir, names, active);
    var d := Doomed(t, baseDir, active);
    forall q
      ensures q in sel <==> q in d
    {
      if q in sel || q in d {
        assert q == pb + [q[|pb|]];
      }
    }
  }

  /** The sweep over the sorted listing of a real profile bin directory. */
  lemma SweepListed(t: Tree, baseDir: Path, active: set<string>)
    requires NoLinkInto(t, ProfileBin(baseDir))
    ensures SweepNames(t, baseDir, SortedStrings(Children(t, ProfileBin(baseDir))), active)
            == t - Doomed(t, baseDir, active)
  {
    var pb := ProfileBin(baseDir);
    var names := SortedStrings(Children(t, pb));
    assert forall n :: n in names <==> pb + [n] in t;
    SortedDistinct(names);
    SweepDistinct(t, baseDir, names, active);
    SelectedIsDoomed(t, baseDir, names, active);
  }

  /** Over distinct names, the sweep removes exactly the selected entries. */
  lemma SweepDistinct(t: Tree, baseDir: Path, names: seq<string>, active: set<string>)
    requires NoLinkInto(t, ProfileBin(baseDir))
    requires forall i, j | 0 <= i < j < |names| :: names[i] != names[j]
    ensures SweepNames(t, baseDir, names, active) == t - Selected(t, baseDir, names, active)
  {
    var sel := Selected(t, baseDir, names, active);
    SweepFrom(t, {}, baseDir, names, active);
    assert t - {} == t && {} + sel == sel;
  }

  /**
   * CleanupOrphanedSymlinks removes exactly the entries the decision
   * selects on the tree it started from, and a failed listing changes
   * nothing.
   */
  lemma SweepRemovesSelected(t: Tree, baseDir: Path, active: set<string>)
    requires Valid(t) && NoLinkInto(t, ProfileBin(baseDir))
    ensures Sweep(t, baseDir, active).err.None? ==> Sweep(t, baseDir, active).tree == t - Doomed(t, baseDir, active)
    ensures Sweep(t, baseDir, active).err.Some? ==> Sweep(t, baseDir, active).tree == t
  {
    var pb := ProfileBin(baseDir);
    var d := Doomed(t, baseDir, active);
    DoomedNeedsDir(t, baseDir, active);
    if IsNotExist(Stat(t, pb)) {
      assert t - d == t;
    } else if ReadDirNames(t, pb).Ok? {
      var names := SortedStrings(ReadDirNames(t, pb).value);
      if Stat(t, pb).path == pb {
        SweepListed(t, baseDir, active);
      } else {
        SweepNothingSelected(t, baseDir, names, active);
        assert t - d == t;
      }
    }
  }

  lemma RemovingLinksKeepsValid(t: Tree, s: set<Path>)
    requires Valid(t)
    requires forall q | q in s :: q in t && t[q].Link?
    ensures Valid(t - s)
  {
    forall q | q in t - s
      ensures ParentIsDir(t - s, q)
    {
      assert ParentIsDir(t, q);
    }
  }

  /** A second sweep over the state the first one left removes nothing more. */
  lemma SweepIdempotent(t: Tree, baseDir: Path, active: set<string>)
    requires Valid(t) && NoLinkInto(t, ProfileBin(baseDir))
    ensures var s := Sweep(t, baseDir, active);
      s.err.None? ==> Sweep(s.tree, baseDir, active) == s
  {
    var pb := ProfileBin(baseDir);
    var d := Doomed(t, baseDir, active);
    SweepRemovesSelected(t, baseDir, active);
    if Sweep(t, baseDir, active).err.None? {
      var t1 := t - d;
      RemovingLinksKeepsValid(t, d);
      forall n
        ensures !ShouldRemove(t1, baseDir, n, active)
      {
        if pb + [n] !in d {
          DecisionFrame(t, d, baseDir, n, active);
        }
      }
      assert Doomed(t1, baseDir, active) == {};
      ResolveFrame(t, d, pb, pb, MaxSymlinkHops);
      SweepRemovesSelected(t1, baseDir, active);
      assert t1 - {} == t1;
    }
  }

  /**
   * Whatever the links, the sweep only removes: every surviving entry is
   * unchanged, and only links directly inside the profile bin directory
   * can disappear.
   */
  lemma {:induction false} SweepOnlyRemovesLinks(t: Tree, baseDir: Path, names: seq<string>, active: set<string>)
    ensures var r := SweepNames(t, baseDir, names, active);
      (forall q | q in r :: q in t && r[q] == t[q])
      && (forall q | q in t && !(t[q].Link? && |q| > 0 && Parent(q) == ProfileBin(baseDir)) :: q in r)
    decreases |names|
  {
    if names != [] {
      var t1 := SweepOne(t, baseDir, names[0], active);
      SweepOnlyRemovesLinks(t1, baseDir, names[1..], active);
      var p := ProfileBin(baseDir) + [names[0]];
      assert ShouldRemove(t, baseDir, names[0], active) ==> Parent(p) == ProfileBin(baseDir);
    }
  }
}

/**
 * A profile in which one command link points at another one: `a` leads
 * to `b`, and `b` is the command link of container `box`, which is no
 * longer configured.
 */
module SymlinkExample {
  import opened Wrappers
  import opened Strings
  import opened Paths
  import opened Os
  import opened Symlinks
  import opened SymlinkLemmas

  const Home: Path := ["home"]
  const Bin: Path := ["home", "profiles", "default", "bin"]
  const Tool: Path := ["home", "store", "box-1", "tool"]
  const Exec: Path := ["home", "bin", "container-exec"]

  function Chained(): Tree {
    map[
      ["home"] := Dir,
      ["home", "bin"] := Dir,
      Exec := File(Raw([]), Mode0755),
      ["home", "store"] := Dir,
      ["home", "store", "box-1"] := Dir,
      Tool := Link(Exec),
      ["home", "profiles"] := Dir,
      ["home", "profiles", "default"] := Dir,
      Bin := Dir,
      Bin + ["a"] := Link(Bin + ["b"]),
      Bin + ["b"] := Link(Tool)
    ]
  }

  lemma ChainedListing(t: Tree)
    requires t == Chained() || t == Chained() - {Bin + ["b"]}
    ensures ProfileBin(Home) == Bin
    ensures Stat(t, Bin) == Found(Bin, Dir)
    ensures forall n :: n in Children(t, Bin) <==> n == "a" || (n == "b" && t == Chained())
  {
    forall n
      ensures Bin + [n] in t <==> n == "a" || (n == "b" && t == Chained())
    {
      assert (Bin + [n])[4] == n;
    }
  }

  /** Nothing above `Bin + ["b"]` blocks it once it is gone. */
  lemma UnblockedB()
    ensures !Blocked(Chained() - {Bin + ["b"]}, Bin + ["b"])
  {
    var t := Chained() - {Bin + ["b"]};
    var p := Bin + ["b"];
    forall k | 0 < k < |p|
      ensures p[..k] in t && t[p[..k]].Dir?
    {
      if k == 1 {
        assert p[..k] == ["home"];
      } else if k == 2 {
        assert p[..k] == ["home", "profiles"];
      } else if k == 3 {
        assert p[..k] == ["home", "profiles", "default"];
      } else {
        assert p[..k] == Bin;
      }
    }
  }

  lemma ChainedValid()
    ensures Valid(Chained())
  {
    assert Parent(Bin + ["a"]) == Bin && Parent(Bin + ["b"]) == Bin;
    assert Parent(Bin) == ["home", "profiles", "default"];
    assert Parent(["home", "profiles", "default"]) == ["home", "profiles"];
    assert Parent(["home", "profiles"]) == ["home"] && Parent(["home", "store"]) == ["home"];
    assert Parent(["home", "bin"]) == ["home"] && Parent(Exec) == ["home", "bin"];
    assert Parent(["home", "store", "box-1"]) == ["home", "store"] && Parent(Tool) == ["home", "store", "box-1"];
  }

  lemma KeepA()
    ensures !ShouldRemove(Chained(), Home, "a", {})
  {
    var t := Chained();
    var a, b := Bin + ["a"], Bin + ["b"];
    assert ProfileBin(Home) + ["a"] == a;
    assert a[4] == "a" && b[4] == "b" && a != b;
    assert t[a] == Link(b) && t[b] == Link(Tool) && t[Tool] == Link(Exec);
    assert Resolve(t, Exec, MaxSymlinkHops - 3) == Found(Exec, File(Raw([]), Mode0755));
    assert Resolve(t, Tool, MaxSymlinkHops - 2) == Resolve(t, Exec, MaxSymlinkHops - 3);
    assert Resolve(t, b, MaxSymlinkHops - 1) == Resolve(t, Tool, MaxSymlinkHops - 2);
    assert Stat(t, a) == Resolve(t, b, MaxSymlinkHops - 1);
    assert b[1] == "profiles" && StoreDir(Home)[1] == "store";
    assert !IsPrefix(StoreDir(Home), b);
  }

  lemma RemoveB()
    ensures ShouldRemove(Chained(), Home, "b", {})
  {
    var t := Chained();
    var b := Bin + ["b"];
    assert ProfileBin(Home) + ["b"] == b;
    assert t[b] == Link(Tool) && t[Tool] == Link(Exec);
    assert Resolve(t, Exec, MaxSymlinkHops - 2) == Found(Exec, File(Raw([]), Mode0755));
    assert Resolve(t, Tool, MaxSymlinkHops - 1) == Resolve(t, Exec, MaxSymlinkHops - 2);
    assert Stat(t, b) == Resolve(t, Tool, MaxSymlinkHops - 1);
    assert IsPrefix(StoreDir(Home), Tool);
    assert Tool[|StoreDir(Home)|..] == ["box-1", "tool"];
    assert MarkerPath(StoreDir(Home), Tool[|StoreDir(Home)|..]) == Tool;
    assert ContainerExecPath(Home) == Exec;
    assert Readlink(t, Tool) == Ok(ContainerExecPath(Home));
    assert IsContainerLink(t, Home, Tool);
  }

  /** The first sweep lists a, b; keeps a, which resolves and is not a store link; removes b. */
  lemma FirstSweep()
    ensures Sweep(Chained(), Home, {}) == Swept(Chained() - {Bin + ["b"]}, None)
  {
    FirstListing();
    FirstDecisions();
  }

  /** The profile bin directory of the example lists a, then b. */
  lemma FirstListing()
    ensures Sweep(Chained(), Home, {}) == Swept(SweepNames(Chained(), Home, ["a", "b"], {}), None)
  {
    var t := Chained();
    ChainedListing(t);
    assert StrLt("a", "b");
    SortedUnique(SortedStrings(Children(t, Bin)), ["a", "b"]);
  }

  /** Going through a, then b: a stays, b goes. */
  lemma FirstDecisions()
    ensures SweepNames(Chained(), Home, ["a", "b"], {}) == Chained() - {Bin + ["b"]}
  {
    var t := Chained();
    KeepA();
    RemoveB();
    assert SweepOne(t, Home, "a", {}) == t;
    assert ProfileBin(Home) + ["b"] == Bin + ["b"];
    assert SweepNames(t, Home, ["a", "b"], {}) == SweepNames(t, Home, ["b"], {});
  }

  /** The second sweep lists only a, which is now broken, and removes it. */
  lemma SecondSweep()
    ensures Bin + ["a"] !in Sweep(Chained() - {Bin + ["b"]}, Home, {}).tree
  {
    var t1 := Chained() - {Bin + ["b"]};
    ChainedListing(t1);
    SortedUnique(SortedStrings(Children(t1, Bin)), ["a"]);
    UnblockedB();
    assert Stat(t1, Bin + ["a"]) == Missing(Bin + ["b"], ENOENT);
    assert ShouldRemove(t1, Home, "a", {});
  }

  /**
   * CleanupOrphanedSymlinks, run twice with no container configured,
   * removes `b` the first time and `a` only the second time: after `b`
   * went, `a` is broken.
   */
  lemma SweepNotIdempotent()
    ensures Valid(Chained()) && !NoLinkInto(Chained(), ProfileBin(Home))
    ensures var first := Sweep(Chained(), Home, {});
      first.err.None? && ProfileBin(Home) + ["a"] in first.tree
      && ProfileBin(Home) + ["a"] !in Sweep(first.tree, Home, {}).tree
  {
    ChainedValid();
    ChainedListing(Chained());
    assert Chained()[Bin + ["a"]].target == Bin + ["b"];
    FirstSweep();
    SecondSweep();
  }
}

/** Recursive discovery of the paths a package and its transitive dependencies
    occupy on disk (`getPackageCachePaths`). The metadata query is replaced by a
    map from package name to the metadata it reports; a name missing from the
    map is a package the query does not know. */
module Discovery {
  import opened Wrappers

  /** What the metadata query reports for one installed package. */
  datatype PkgInfo = PkgInfo(executables: seq<string>, directories: seq<string>, deps: seq<string>)

  /** The one error discovery raises: a package, at any depth, that the
      metadata query does not know. */
  datatype DiscoveryError = UnknownPackage(name: string)

  type Metadata = map<string, PkgInfo>

  /** A package's own paths: executables first, then directories, each list
      kept whole and in its own order. */
  function OwnPaths(info: PkgInfo): (paths: seq<string>)
    ensures |paths| == |info.executables| + |info.directories|
    ensures forall i :: 0 <= i < |info.executables| ==> paths[i] == info.executables[i]
    ensures forall j :: 0 <= j < |info.directories| ==> paths[|info.executables| + j] == info.directories[j]
  {
    info.executables + info.directories
  }

  /** Every declared dependency of every known package has a strictly smaller
      rank than the package. The source has no cycle detection and recurses
      without end once the walk reaches a cycle; this precondition rules out
      every cycle in the map, including cycles the walk would never reach. */
  ghost predicate Ranked(meta: Metadata, rank: string -> nat) {
    forall p, i :: p in meta && 0 <= i < |meta[p].deps| ==> rank(meta[p].deps[i]) < rank(p)
  }

  /** Every name in `deps` ranks strictly below `parent`. */
  ghost predicate RankedBelow(rank: string -> nat, parent: string, deps: seq<string>) {
    forall i :: 0 <= i < |deps| ==> rank(deps[i]) < rank(parent)
  }

  /** Discovery of one package: its own paths followed by the discovery of
      each declared dependency in declared order; the first unknown package
      met in this depth-first walk aborts the whole discovery. */
  function Discover(meta: Metadata, ghost rank: string -> nat, name: string): (r: Result<seq<string>, DiscoveryError>)
    requires Ranked(meta, rank)
    ensures name !in meta ==> r == Failure(UnknownPackage(name))
    ensures r.Failure? ==> r.error.name !in meta
    ensures r.Success? ==> name in meta && OwnPaths(meta[name]) <= r.value
    decreases rank(name), 1
  {
    if name !in meta then
      Failure(UnknownPackage(name))
    else
      var info := meta[name];
      assert RankedBelow(rank, name, info.deps);
      var depPaths :- DiscoverDeps(meta, rank, name, info.deps);
      Success(OwnPaths(info) + depPaths)
  }

  /** The dependency loop of `Discover`: the discoveries of `deps`, concatenated
      in order, or the first failure among them. */
  function DiscoverDeps(meta: Metadata, ghost rank: string -> nat, ghost parent: string, deps: seq<string>): (r: Result<seq<string>, DiscoveryError>)
    requires Ranked(meta, rank)
    requires RankedBelow(rank, parent, deps)
    ensures r.Failure? ==> r.error.name !in meta
    decreases rank(parent), 0, |deps|
  {
    if |deps| == 0 then
      Success([])
    else
      var head :- Discover(meta, rank, deps[0]);
      var tail :- DiscoverDeps(meta, rank, parent, deps[1..]);
      Success(head + tail)
  }

  /** `getPackageCachePaths` as the source writes it: look the package up,
      start from its own paths and append each dependency's paths in a loop,
      stopping at the first failure. It computes exactly `Discover`. */
  method CollectPaths(meta: Metadata, ghost rank: string -> nat, name: string) returns (r: Result<seq<string>, DiscoveryError>)
    requires Ranked(meta, rank)
    ensures r == Discover(meta, rank, name)
    decreases rank(name)
  {
    if name !in meta {
      return Failure(UnknownPackage(name));
    }
    var info := meta[name];
    assert RankedBelow(rank, name, info.deps);
    var paths := OwnPaths(info);
    var i := 0;
    while i < |info.deps|
      invariant 0 <= i <= |info.deps|
      invariant RankedBelow(rank, name, info.deps[..i])
      invariant DiscoverDeps(meta, rank, name, info.deps[..i]).Success?
      invariant paths == OwnPaths(info) + DiscoverDeps(meta, rank, name, info.deps[..i]).value
    {
      var dep := info.deps[i];
      var depPaths := CollectPaths(meta, rank, dep);
      assert info.deps[..i + 1] == info.deps[..i] + [dep];
      DiscoverDepsSingleton(meta, rank, name, dep);
      DiscoverDepsAppend(meta, rank, name, info.deps[..i], [dep]);
      if depPaths.Failure? {
        assert info.deps == info.deps[..i + 1] + info.deps[i + 1..];
        DiscoverDepsAppend(meta, rank, name, info.deps[..i + 1], info.deps[i + 1..]);
        return Failure(depPaths.error);
      }
      paths := paths + depPaths.value;
      i := i + 1;
    }
    assert info.deps[..i] == info.deps;
    return Success(paths);
  }

  /** A known package without dependencies contributes only its own paths. */
  lemma DiscoverLeaf(meta: Metadata, rank: string -> nat, name: string)
    requires Ranked(meta, rank)
    requires name in meta && meta[name].deps == []
    ensures Discover(meta, rank, name) == Success(OwnPaths(meta[name]))
  {
    assert DiscoverDeps(meta, rank, name, []) == Success([]);
    assert OwnPaths(meta[name]) + [] == OwnPaths(meta[name]);
  }

  /** The dependency loop over a single name is the discovery of that name. */
  lemma DiscoverDepsSingleton(meta: Metadata, rank: string -> nat, parent: string, dep: string)
    requires Ranked(meta, rank)
    requires rank(dep) < rank(parent)
    ensures RankedBelow(rank, parent, [dep])
    ensures DiscoverDeps(meta, rank, parent, [dep]) == Discover(meta, rank, dep)
  {
    assert RankedBelow(rank, parent, [dep]);
    assert [dep][1..] == [];
    var r := Discover(meta, rank, dep);
    if r.Success? {
      assert r.value + [] == r.value;
    }
  }

  /** Splitting the dependency list splits the result: the paths of earlier
      dependencies precede those of later ones, and a failure in the first part
      wins over anything in the second. */
  lemma {:induction false} DiscoverDepsAppend(meta: Metadata, rank: string -> nat, parent: string, xs: seq<string>, ys: seq<string>)
    requires Ranked(meta, rank)
    requires RankedBelow(rank, parent, xs) && RankedBelow(rank, parent, ys)
    ensures RankedBelow(rank, parent, xs + ys)
    ensures DiscoverDeps(meta, rank, parent, xs + ys) ==
      match DiscoverDeps(meta, rank, parent, xs)
      case Failure(e) => Failure(e)
      case Success(a) =>
        match DiscoverDeps(meta, rank, parent, ys)
        case Failure(e) => Failure(e)
        case Success(b) => Success(a + b)
    decreases |xs|
  {
    assert RankedBelow(rank, parent, xs + ys) by {
      forall i | 0 <= i < |xs + ys| ensures rank((xs + ys)[i]) < rank(parent) {
        if i < |xs| { assert (xs + ys)[i] == xs[i]; } else { assert (xs + ys)[i] == ys[i - |xs|]; }
      }
    }
    if |xs| == 0 {
      assert xs + ys == ys;
      var r := DiscoverDeps(meta, rank, parent, ys);
      if r.Success? {
        assert [] + r.value == r.value;
      }
    } else {
      assert (xs + ys)[0] == xs[0];
      assert (xs + ys)[1..] == xs[1..] + ys;
      assert RankedBelow(rank, parent, xs[1..]);
      DiscoverDepsAppend(meta, rank, parent, xs[1..], ys);
      var h := Discover(meta, rank, xs[0]);
      var t := DiscoverDeps(meta, rank, parent, xs[1..]);
      var u := DiscoverDeps(meta, rank, parent, ys);
      if h.Success? && t.Success? && u.Success? {
        assert h.value + (t.value + u.value) == (h.value + t.value) + u.value;
      }
    }
  }

  /** The dependency loop succeeds exactly when every dependency's discovery
      succeeds; a failure is that of the first failing dependency in declared
      order. */
  lemma {:induction false} DiscoverDepsOutcome(meta: Metadata, rank: string -> nat, parent: string, deps: seq<string>)
    requires Ranked(meta, rank)
    requires RankedBelow(rank, parent, deps)
    ensures DiscoverDeps(meta, rank, parent, deps).Success? <==>
      forall i :: 0 <= i < |deps| ==> Discover(meta, rank, deps[i]).Success?
    ensures DiscoverDeps(meta, rank, parent, deps).Failure? ==>
      exists i :: 0 <= i < |deps| && Discover(meta, rank, deps[i]) == DiscoverDeps(meta, rank, parent, deps)
        && forall j :: 0 <= j < i ==> Discover(meta, rank, deps[j]).Success?
    decreases |deps|
  {
    if |deps| > 0 {
      var tail := deps[1..];
      assert RankedBelow(rank, parent, tail);
      DiscoverDepsOutcome(meta, rank, parent, tail);
      assert forall i :: 1 <= i < |deps| ==> deps[i] == tail[i - 1];
      var r := DiscoverDeps(meta, rank, parent, deps);
      if Discover(meta, rank, deps[0]).Failure? {
        assert Discover(meta, rank, deps[0]) == r;
      } else if r.Failure? {
        var k :| 0 <= k < |tail| && Discover(meta, rank, tail[k]) == DiscoverDeps(meta, rank, parent, tail)
          && forall j :: 0 <= j < k ==> Discover(meta, rank, tail[j]).Success?;
        assert Discover(meta, rank, deps[k + 1]) == r;
        assert forall j :: 0 <= j < k + 1 ==> Discover(meta, rank, deps[j]).Success? by {
          forall j | 0 <= j < k + 1 ensures Discover(meta, rank, deps[j]).Success? {
            if j > 0 { assert deps[j] == tail[j - 1]; }
          }
        }
      }
    }
  }

  /** On success the loop's result holds exactly the paths of the dependencies'
      discoveries. */
  lemma {:induction false} DiscoverDepsMembers(meta: Metadata, rank: string -> nat, parent: string, deps: seq<string>, p: string)
    requires Ranked(meta, rank)
    requires RankedBelow(rank, parent, deps)
    requires DiscoverDeps(meta, rank, parent, deps).Success?
    ensures p in DiscoverDeps(meta, rank, parent, deps).value <==>
      exists i :: 0 <= i < |deps| && Discover(meta, rank, deps[i]).Success? && p in Discover(meta, rank, deps[i]).value
    decreases |deps|
  {
    if |deps| > 0 {
      var tail := deps[1..];
      assert RankedBelow(rank, parent, tail);
      DiscoverDepsMembers(meta, rank, parent, tail, p);
      var h := Discover(meta, rank, deps[0]);
      if p in DiscoverDeps(meta, rank, parent, tail).value {
        var k :| 0 <= k < |tail| && Discover(meta, rank, tail[k]).Success? && p in Discover(meta, rank, tail[k]).value;
        assert deps[k + 1] == tail[k];
      }
      if exists i :: 0 <= i < |deps| && Discover(meta, rank, deps[i]).Success? && p in Discover(meta, rank, deps[i]).value {
        var i :| 0 <= i < |deps| && Discover(meta, rank, deps[i]).Success? && p in Discover(meta, rank, deps[i]).value;
        if i > 0 {
          assert deps[i] == tail[i - 1];
        }
      }
    }
  }

  /** A chain of declared dependencies through known packages. */
  ghost predicate IsDepChain(meta: Metadata, chain: seq<string>) {
    && |chain| > 0
    && forall i :: 0 <= i < |chain| - 1 ==> chain[i] in meta && chain[i + 1] in meta[chain[i]].deps
  }

  /** `target` is `source` itself or one of its transitive dependencies. */
  ghost predicate Reaches(meta: Metadata, source: string, target: string) {
    exists chain :: IsDepChain(meta, chain) && chain[0] == source && chain[|chain| - 1] == target
  }

  lemma ReachesSelf(meta: Metadata, name: string)
    ensures Reaches(meta, name, name)
  {
    assert IsDepChain(meta, [name]);
  }

  lemma ReachesThroughDep(meta: Metadata, name: string, dep: string, target: string)
    requires name in meta && dep in meta[name].deps
    requires Reaches(meta, dep, target)
    ensures Reaches(meta, name, target)
  {
    var chain :| IsDepChain(meta, chain) && chain[0] == dep && chain[|chain| - 1] == target;
    var longer := [name] + chain;
    assert forall i :: 1 <= i < |longer| ==> longer[i] == chain[i - 1];
    assert IsDepChain(meta, longer);
  }

  lemma ReachesSplit(meta: Metadata, name: string, target: string)
    requires Reaches(meta, name, target)
    ensures name == target || (name in meta && exists dep :: dep in meta[name].deps && Reaches(meta, dep, target))
  {
    var chain :| IsDepChain(meta, chain) && chain[0] == name && chain[|chain| - 1] == target;
    if |chain| > 1 {
      var rest := chain[1..];
      assert forall i :: 0 <= i < |rest| ==> rest[i] == chain[i + 1];
      assert IsDepChain(meta, rest);
      assert Reaches(meta, chain[1], target);
    }
  }

  /** A failed discovery names a package that is unknown and that the root
      reaches: the root itself or one of its transitive dependencies. */
  lemma {:induction false} DiscoverFailureIsReachableUnknown(meta: Metadata, rank: string -> nat, name: string)
    requires Ranked(meta, rank)
    requires Discover(meta, rank, name).Failure?
    ensures Discover(meta, rank, name).error.name !in meta
    ensures Reaches(meta, name, Discover(meta, rank, name).error.name)
    decreases rank(name)
  {
    var e := Discover(meta, rank, name).error;
    if name !in meta {
      ReachesSelf(meta, name);
    } else {
      var deps := meta[name].deps;
      assert RankedBelow(rank, name, deps);
      DiscoverDepsOutcome(meta, rank, name, deps);
      var i :| 0 <= i < |deps| && Discover(meta, rank, deps[i]) == DiscoverDeps(meta, rank, name, deps)
        && forall j :: 0 <= j < i ==> Discover(meta, rank, deps[j]).Success?;
      DiscoverFailureIsReachableUnknown(meta, rank, deps[i]);
      ReachesThroughDep(meta, name, deps[i], e.name);
    }
  }

  /** After a successful discovery every package the root reaches is known. */
  lemma {:induction false} DiscoverSuccessKnowsReachable(meta: Metadata, rank: string -> nat, name: string, target: string)
    requires Ranked(meta, rank)
    requires Discover(meta, rank, name).Success?
    requires Reaches(meta, name, target)
    ensures target in meta
    decreases rank(name)
  {
    ReachesSplit(meta, name, target);
    if name != target {
      var deps := meta[name].deps;
      var dep :| dep in deps && Reaches(meta, dep, target);
      var i :| 0 <= i < |deps| && deps[i] == dep;
      assert RankedBelow(rank, name, deps);
      DiscoverDepsOutcome(meta, rank, name, deps);
      DiscoverSuccessKnowsReachable(meta, rank, dep, target);
    }
  }

  /** Discovery succeeds exactly when the root and all of its transitive
      dependencies are known. */
  lemma DiscoverSucceedsIffClosed(meta: Metadata, rank: string -> nat, name: string)
    requires Ranked(meta, rank)
    ensures Discover(meta, rank, name).Success? <==> forall target :: Reaches(meta, name, target) ==> target in meta
  {
    if Discover(meta, rank, name).Success? {
      forall target | Reaches(meta, name, target) ensures target in meta {
        DiscoverSuccessKnowsReachable(meta, rank, name, target);
      }
    } else {
      DiscoverFailureIsReachableUnknown(meta, rank, name);
    }
  }

  /** A successful discovery lists exactly the own paths of the packages the
      root reaches: nothing else, and none of them left out. */
  lemma {:induction false} DiscoverContents(meta: Metadata, rank: string -> nat, name: string, p: string)
    requires Ranked(meta, rank)
    requires Discover(meta, rank, name).Success?
    ensures p in Discover(meta, rank, name).value <==>
      exists pkg :: Reaches(meta, name, pkg) && pkg in meta && p in OwnPaths(meta[pkg])
    decreases rank(name)
  {
    var info := meta[name];
    var deps := info.deps;
    assert RankedBelow(rank, name, deps);
    var depPaths := DiscoverDeps(meta, rank, name, deps);
    assert Discover(meta, rank, name).value == OwnPaths(info) + depPaths.value;
    DiscoverDepsMembers(meta, rank, name, deps, p);
    if p in Discover(meta, rank, name).value {
      if p in OwnPaths(info) {
        ReachesSelf(meta, name);
      } else {
        var i :| 0 <= i < |deps| && Discover(meta, rank, deps[i]).Success? && p in Discover(meta, rank, deps[i]).value;
        DiscoverContents(meta, rank, deps[i], p);
        var pkg :| Reaches(meta, deps[i], pkg) && pkg in meta && p in OwnPaths(meta[pkg]);
        ReachesThroughDep(meta, name, deps[i], pkg);
      }
    }
    if exists pkg :: Reaches(meta, name, pkg) && pkg in meta && p in OwnPaths(meta[pkg]) {
      var pkg :| Reaches(meta, name, pkg) && pkg in meta && p in OwnPaths(meta[pkg]);
      ReachesSplit(meta, name, pkg);
      if pkg != name {
        var dep :| dep in deps && Reaches(meta, dep, pkg);
        var i :| 0 <= i < |deps| && deps[i] == dep;
        DiscoverDepsOutcome(meta, rank, name, deps);
        DiscoverContents(meta, rank, dep, p);
      }
    }
  }

  /** The number of paths a discovery lists, counted without building the list:
      every occurrence of a package in the dependency tree contributes its own
      paths again. */
  ghost function PathCount(meta: Metadata, rank: string -> nat, name: string): nat
    requires Ranked(meta, rank)
    decreases rank(name), 1
  {
    if name !in meta then 0
    else
      assert RankedBelow(rank, name, meta[name].deps);
      |meta[name].executables| + |meta[name].directories| + DepsPathCount(meta, rank, name, meta[name].deps)
  }

  ghost function DepsPathCount(meta: Metadata, rank: string -> nat, parent: string, deps: seq<string>): nat
    requires Ranked(meta, rank)
    requires RankedBelow(rank, parent, deps)
    decreases rank(parent), 0, |deps|
  {
    if |deps| == 0 then 0
    else PathCount(meta, rank, deps[0]) + DepsPathCount(meta, rank, parent, deps[1..])
  }

  /** No deduplication: a successful discovery has exactly as many entries as
      the occurrences of paths in the dependency tree. */
  lemma {:induction false} DiscoverLength(meta: Metadata, rank: string -> nat, name: string)
    requires Ranked(meta, rank)
    requires Discover(meta, rank, name).Success?
    ensures |Discover(meta, rank, name).value| == PathCount(meta, rank, name)
    decreases rank(name), 1
  {
    var deps := meta[name].deps;
    assert RankedBelow(rank, name, deps);
    DiscoverDepsLength(meta, rank, name, deps);
  }

  lemma {:induction false} DiscoverDepsLength(meta: Metadata, rank: string -> nat, parent: string, deps: seq<string>)
    requires Ranked(meta, rank)
    requires RankedBelow(rank, parent, deps)
    requires DiscoverDeps(meta, rank, parent, deps).Success?
    ensures |DiscoverDeps(meta, rank, parent, deps).value| == DepsPathCount(meta, rank, parent, deps)
    decreases rank(parent), 0, |deps|
  {
    if |deps| > 0 {
      DiscoverLength(meta, rank, deps[0]);
      DiscoverDepsLength(meta, rank, parent, deps[1..]);
    }
  }

  /** Depth-first pre-order: a successful discovery is the package's own paths,
      then the paths of the dependencies declared before the i-th, then the
      i-th dependency's own discovery, then the paths of those declared after. */
  lemma DiscoverPreorder(meta: Metadata, rank: string -> nat, name: string, i: nat)
    requires Ranked(meta, rank)
    requires Discover(meta, rank, name).Success?
    requires i < |meta[name].deps|
    ensures RankedBelow(rank, name, meta[name].deps[..i]) && RankedBelow(rank, name, meta[name].deps[i + 1..])
    ensures Discover(meta, rank, meta[name].deps[i]).Success?
    ensures DiscoverDeps(meta, rank, name, meta[name].deps[..i]).Success?
    ensures DiscoverDeps(meta, rank, name, meta[name].deps[i + 1..]).Success?
    ensures Discover(meta, rank, name).value ==
      OwnPaths(meta[name])
      + DiscoverDeps(meta, rank, name, meta[name].deps[..i]).value
      + Discover(meta, rank, meta[name].deps[i]).value
      + DiscoverDeps(meta, rank, name, meta[name].deps[i + 1..]).value
  {
    var deps := meta[name].deps;
    assert RankedBelow(rank, name, deps);
    var before, dep, after := deps[..i], deps[i], deps[i + 1..];
    assert RankedBelow(rank, name, before);
    assert RankedBelow(rank, name, after);
    var rest := [dep] + after;
    assert deps == before + rest;
    DiscoverDepsSingleton(meta, rank, name, dep);
    DiscoverDepsAppend(meta, rank, name, [dep], after);
    DiscoverDepsAppend(meta, rank, name, before, rest);
    var whole := DiscoverDeps(meta, rank, name, deps);
    assert Discover(meta, rank, name).value == OwnPaths(meta[name]) + whole.value;
    var a := DiscoverDeps(meta, rank, name, before).value;
    var d := Discover(meta, rank, dep).value;
    var b := DiscoverDeps(meta, rank, name, after).value;
    assert whole.value == a + (d + b);
    assert OwnPaths(meta[name]) + (a + (d + b)) == OwnPaths(meta[name]) + a + d + b;
  }
}

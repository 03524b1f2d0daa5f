/** The operations `src/deps/pip/cache.ts` exports: the content descriptor
    built from discovery, and the save/restore bridge to the cache service.
    The service itself is external: saving is modelled by the request it is
    handed, restoring by the optional key it answers with. */
module PipCache {
  import opened Wrappers
  import opened CacheKeys
  import opened Discovery

  /** `getPackageContentCacheInfo`: the static descriptor with `-content`
      appended to its key and its path replaced by the discovered paths;
      a discovery failure aborts the whole call. */
  function ContentInfo(host: Host, meta: Metadata, ghost rank: string -> nat, name: string): (r: Result<PackageCacheInfo, DiscoveryError>)
    requires Ranked(meta, rank)
    ensures name !in meta ==> r == Failure(UnknownPackage(name))
    ensures r.Success? <==> Discover(meta, rank, name).Success?
    ensures r.Failure? ==> r.error == Discover(meta, rank, name).error
    ensures r.Success? ==> r.value.name == name
    ensures r.Success? ==> r.value.key == StaticInfo(host, name).key + ContentSuffix
    ensures r.Success? ==> r.value.paths == Discover(meta, rank, name).value
  {
    var info := StaticInfo(host, name);
    var paths :- Discover(meta, rank, name);
    Success(info.(key := info.key + ContentSuffix, paths := paths))
  }

  /** The content key is fixed by the operating system type and the package
      name alone, and a successful content descriptor lists at least the
      package's own paths, first. */
  lemma ContentInfoShape(host: Host, meta: Metadata, rank: string -> nat, name: string)
    requires Ranked(meta, rank)
    requires ContentInfo(host, meta, rank, name).Success?
    ensures ContentInfo(host, meta, rank, name).value.key == ContentKey(host.osType, name)
    ensures OwnPaths(meta[name]) <= ContentInfo(host, meta, rank, name).value.paths
  {
  }

  /** `cachePackage`: the (paths, key) pair handed to the service's save, which
      is the glob descriptor: the lower-cased pattern, then the pattern with
      the name as given, under the static key. It never hands over an empty
      path list. */
  function CachePackage(host: Host, name: string): (req: CacheInfo)
    ensures req.paths == [
      host.join([host.userSitePackage, host.lower(name) + "*"]),
      host.join([host.userSitePackage, name + "*"]) ]
    ensures req.paths == GlobInfo(host, name).paths
    ensures req.key == StaticKey(host.osType, name)
  {
    GlobInfo(host, name)
  }

  /** What `restorePackage` returns for the service's answer: a hit exactly
      when the service names a key; a miss is a plain `false`, not an error. */
  function RestoreHit(restored: Option<string>): (hit: bool)
    ensures hit <==> restored.Some?
  {
    restored != None
  }

  /** `restorePackage`, with the cache service's restore as a parameter. It asks
      for the same (paths, key) pair `cachePackage` saves under. */
  function RestorePackage(host: Host, restoreCache: (seq<string>, string) -> Option<string>, name: string): (hit: bool)
    ensures hit <==> restoreCache(CachePackage(host, name).paths, CachePackage(host, name).key).Some?
  {
    var info := GlobInfo(host, name);
    RestoreHit(restoreCache(info.paths, info.key))
  }

  /** Saving and restoring address the service with the static descriptor's key
      and the same two glob patterns. */
  lemma SaveAndRestoreAgree(host: Host, restoreCache: (seq<string>, string) -> Option<string>, name: string)
    ensures CachePackage(host, name).key == StaticInfo(host, name).key
    ensures RestorePackage(host, restoreCache, name) <==>
      restoreCache(GlobInfo(host, name).paths, StaticInfo(host, name).key).Some?
  {
  }

  /** The rank used by the scenarios below: a package ranks above its
      dependencies. */
  function ScenarioRank(name: string): nat {
    if name == "app" || name == "A" then 2
    else if name == "B" || name == "lib1" then 1
    else 0
  }

  /** Metadata of the single-package scenario. */
  function SingleMeta(): Metadata {
    map["requests" := PkgInfo([], [".../requests"], [])]
  }

  /** Metadata of the siblings scenario: `app` depends on `lib1` and `lib2`. */
  function SiblingsMeta(): Metadata {
    map[
      "app" := PkgInfo([], ["d0"], ["lib1", "lib2"]),
      "lib1" := PkgInfo([], ["d1"], []),
      "lib2" := PkgInfo([], ["d2"], [])]
  }

  /** Metadata of the depth-first scenario: A depends on [B, C], B on [D]. */
  function DepthFirstMeta(): Metadata {
    map[
      "A" := PkgInfo(["a"], [], ["B", "C"]),
      "B" := PkgInfo(["b"], [], ["D"]),
      "C" := PkgInfo(["c"], [], []),
      "D" := PkgInfo(["d"], [], [])]
  }

  /** Metadata where `app` declares `lib1` twice. */
  function DuplicateMeta(): Metadata {
    map[
      "app" := PkgInfo([], ["d0"], ["lib1", "lib1"]),
      "lib1" := PkgInfo([], ["d1"], [])]
  }

  /** Metadata where `app`'s second dependency `lib2` is unknown. */
  function UnknownDepMeta(): Metadata {
    map[
      "app" := PkgInfo([], ["d0"], ["lib1", "lib2"]),
      "lib1" := PkgInfo([], ["d1"], [])]
  }

  /** A package without dependencies lists only its own paths. */
  lemma ScenarioSingle(host: Host)
    ensures Ranked(SingleMeta(), ScenarioRank)
    ensures ContentInfo(host, SingleMeta(), ScenarioRank, "requests").Success?
    ensures ContentInfo(host, SingleMeta(), ScenarioRank, "requests").value.paths == [".../requests"]
  {
    var meta := SingleMeta();
    assert Ranked(meta, ScenarioRank);
    DiscoverLeaf(meta, ScenarioRank, "requests");
    assert OwnPaths(meta["requests"]) == [".../requests"];
  }

  /** Siblings are visited in declared order after the parent's own paths. */
  lemma ScenarioSiblings()
    ensures Ranked(SiblingsMeta(), ScenarioRank)
    ensures Discover(SiblingsMeta(), ScenarioRank, "app") == Success(["d0", "d1", "d2"])
  {
    var meta := SiblingsMeta();
    assert Ranked(meta, ScenarioRank);
    DiscoverLeaf(meta, ScenarioRank, "lib1");
    DiscoverLeaf(meta, ScenarioRank, "lib2");
    assert OwnPaths(meta["lib1"]) == ["d1"];
    assert OwnPaths(meta["lib2"]) == ["d2"];
    DiscoverDepsSingleton(meta, ScenarioRank, "app", "lib1");
    DiscoverDepsSingleton(meta, ScenarioRank, "app", "lib2");
    DiscoverDepsAppend(meta, ScenarioRank, "app", ["lib1"], ["lib2"]);
    assert ["lib1"] + ["lib2"] == ["lib1", "lib2"];
    assert ["d1"] + ["d2"] == ["d1", "d2"];
    assert OwnPaths(meta["app"]) + ["d1", "d2"] == ["d0", "d1", "d2"];
  }

  /** Depth-first pre-order: A depends on [B, C] and B on [D], so the order is
      A, B, D, C. */
  lemma ScenarioDepthFirst()
    ensures Ranked(DepthFirstMeta(), ScenarioRank)
    ensures Discover(DepthFirstMeta(), ScenarioRank, "A") == Success(["a", "b", "d", "c"])
  {
    var meta := DepthFirstMeta();
    assert Ranked(meta, ScenarioRank);
    DiscoverLeaf(meta, ScenarioRank, "D");
    DiscoverLeaf(meta, ScenarioRank, "C");
    assert OwnPaths(meta["D"]) == ["d"];
    assert OwnPaths(meta["C"]) == ["c"];
    DiscoverDepsSingleton(meta, ScenarioRank, "B", "D");
    assert OwnPaths(meta["B"]) + ["d"] == ["b", "d"];
    assert Discover(meta, ScenarioRank, "B") == Success(["b", "d"]);
    DiscoverDepsSingleton(meta, ScenarioRank, "A", "B");
    DiscoverDepsSingleton(meta, ScenarioRank, "A", "C");
    DiscoverDepsAppend(meta, ScenarioRank, "A", ["B"], ["C"]);
    assert ["B"] + ["C"] == ["B", "C"];
    assert ["b", "d"] + ["c"] == ["b", "d", "c"];
    assert OwnPaths(meta["A"]) + ["b", "d", "c"] == ["a", "b", "d", "c"];
  }

  /** No deduplication: a dependency declared twice contributes its paths twice. */
  lemma ScenarioDuplicateDependency()
    ensures Ranked(DuplicateMeta(), ScenarioRank)
    ensures Discover(DuplicateMeta(), ScenarioRank, "app") == Success(["d0", "d1", "d1"])
  {
    var meta := DuplicateMeta();
    assert Ranked(meta, ScenarioRank);
    DiscoverLeaf(meta, ScenarioRank, "lib1");
    assert OwnPaths(meta["lib1"]) == ["d1"];
    DiscoverDepsSingleton(meta, ScenarioRank, "app", "lib1");
    DiscoverDepsAppend(meta, ScenarioRank, "app", ["lib1"], ["lib1"]);
    assert ["lib1"] + ["lib1"] == ["lib1", "lib1"];
    assert ["d1"] + ["d1"] == ["d1", "d1"];
    assert OwnPaths(meta["app"]) + ["d1", "d1"] == ["d0", "d1", "d1"];
  }

  /** An unknown transitive dependency fails the whole discovery with its name,
      even though the root and an earlier sibling are known. */
  lemma ScenarioUnknownDependency()
    ensures Ranked(UnknownDepMeta(), ScenarioRank)
    ensures Discover(UnknownDepMeta(), ScenarioRank, "app") == Failure(UnknownPackage("lib2"))
  {
    var meta := UnknownDepMeta();
    assert Ranked(meta, ScenarioRank);
    DiscoverLeaf(meta, ScenarioRank, "lib1");
    DiscoverDepsSingleton(meta, ScenarioRank, "app", "lib1");
    DiscoverDepsSingleton(meta, ScenarioRank, "app", "lib2");
    DiscoverDepsAppend(meta, ScenarioRank, "app", ["lib1"], ["lib2"]);
    assert ["lib1"] + ["lib2"] == ["lib1", "lib2"];
  }
}

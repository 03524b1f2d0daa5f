# pip package cache keys and paths, modelled in Dafny

This project models how a GitHub Action decides what to cache for an
installed pip package and under which key (`src/deps/pip/cache.ts`).

- **Static descriptor** (`getPackageCacheInfo`): the package name, the key
  `pip-<os type>-<name>`, and one path: the package's JSON info file under
  `~/.pip_cache_info`.
- **Content descriptor** (`getPackageContentCacheInfo`): the static key with
  `-content` appended. Its paths come from recursive discovery.
- **Recursive discovery** (`getPackageCachePaths`): a package's executables,
  then its directories, then each declared dependency's discovery in declared
  order. This is a depth-first, pre-order walk. It does not deduplicate. An
  unknown package at any depth aborts the whole walk with an error naming it.
- **Glob descriptor** (`getCacheInfo`): the same key as the static
  descriptor, and two glob patterns under the user site-packages directory.
  The lower-cased name comes first and the name as given second.
- **Save / restore** (`cachePackage`, `restorePackage`): both hand the glob
  descriptor to the cache service. Restore reports a hit exactly when the
  service answers with a key.

Files:

- `wrappers.dfy`: the `Option` and `Result` types.
- `keys.dfy`: module `CacheKeys`, holding the keys and the static and glob descriptors.
- `discovery.dfy`: module `Discovery`, holding recursive discovery and its properties.
- `pip_cache.dfy`: module `PipCache`, holding the content descriptor, the save/restore bridge and worked scenarios.

Modelling choices:

- Host facts are fields of a `Host` value: `os.type()`, `os.homedir()`, the
  user site-packages directory reported by the context query, `path.join`
  and `toLowerCase`. `join` and `lower` are arbitrary total functions, so
  every property holds whatever they compute.
- The package metadata query becomes a `map<string, PkgInfo>`. A name that is
  absent is an unknown package, which is the query's `null`.
- The source has no cycle detection: when the walk reaches a dependency
  cycle it recurses without end. Discovery therefore takes a
  `rank: string -> nat` together with the precondition `Ranked`: every
  declared dependency of every known package ranks strictly below it.
  `rank` is a ghost parameter: it serves the termination proof only and is
  not needed to compute anything. No cycle error is invented. `Ranked` constrains the whole map, so it also
  excludes metadata whose cycles the source never reaches (see "## Left out").
- The code never checks that a package name is non-empty, so the model does
  not require it.
- `Discover`/`DiscoverDeps` is the functional reference definition.
  `CollectPaths` follows the source's loop: start from the own paths, then
  append each dependency's paths and stop at the first failure. It is proved
  to compute exactly `Discover`.
- Keys form a single namespace. The content key of a package `x` equals the
  static key of a package named `x-content`
  (`ContentKeyIsStaticKeyOfSuffixedName`). Jointly, `(os type, name)` does
  not determine the key injectively either: `("a-b", "c")` and `("a", "b-c")`
  share a key (`StaticKeyAmbiguousAcrossOsAndName`). The model records this
  behaviour and does not change it.

## Model

| member | source | states |
|---|---|---|
| CacheKeys.StaticKey | src/deps/pip/cache.ts:21 | the key is `pip-`, the OS type, a dash, then the whole package name as its tail; the glob key at line 60 is the same template |
| CacheKeys.ContentKey | src/deps/pip/cache.ts:32 | the content key is the same package's static key followed by exactly `-content` |
| CacheKeys.ParseStaticKey | src/deps/pip/cache.ts:21 | reading a key back: a recovered name rebuilds exactly that key; when nothing is recovered, no package name yields that key for that OS type |
| CacheKeys.ParseStaticKeyRoundTrip | src/deps/pip/cache.ts:21 | the name can be read back from the static key it produced |
| CacheKeys.StaticKeyInjective | src/deps/pip/cache.ts:21 | for one OS type, distinct package names get distinct keys |
| CacheKeys.StaticKeyDistinguishesOs | src/deps/pip/cache.ts:21 | for one package name, distinct OS types get distinct keys |
| CacheKeys.ContentKeyDiffersFromStaticKey | src/deps/pip/cache.ts:31-32 | the content key is never the static key of the same package; it is longer by exactly the length of `-content` |
| CacheKeys.ContentKeyIsStaticKeyOfSuffixedName | src/deps/pip/cache.ts:21-32 | the content key of `x` coincides with the static key of a package named `x-content` |
| CacheKeys.StaticKeyAmbiguousAcrossOsAndName | src/deps/pip/cache.ts:21 | the pair (OS type, name) does not determine the key injectively: `("a-b", "c")` and `("a", "b-c")` share one |
| CacheKeys.StaticInfo | src/deps/pip/cache.ts:18-26 | keeps the name; its key reads back to exactly that name; exactly one path, `join(home, ".pip_cache_info", name + ".json")` |
| CacheKeys.GlobInfo | src/deps/pip/cache.ts:53-62 | exactly two patterns under the user site directory, the lower-cased name first and the name as given second; the key is the static descriptor's key |
| CacheKeys.StaticKeyIgnoresDirectories | src/deps/pip/cache.ts:21-60 | the static key (line 21) and the glob key (line 60) depend on the OS type and the name only, not on the home or site directory |
| CacheKeys.GlobPatternsCoincideOnLowerCase | src/deps/pip/cache.ts:56-59 | for an already lower-case name the two patterns are the same entry, repeated rather than merged |
| Discovery.OwnPaths | src/deps/pip/cache.ts:45 | a package's own paths are all its executables, in order, followed by all its directories, in order |
| Discovery.Discover | src/deps/pip/cache.ts:37-51 | an unknown root fails with exactly its own name; every failure names a package the metadata lacks; on success the package is known and its own paths come first |
| Discovery.DiscoverDeps | src/deps/pip/cache.ts:46-49 | the dependency loop can only fail with the name of a package the metadata lacks |
| Discovery.CollectPaths | src/deps/pip/cache.ts:37-51 | the source's loop (own paths, then append each dependency's result, stop at the first failure) computes exactly the reference discovery |
| Discovery.DiscoverLeaf | src/deps/pip/cache.ts:44-50 | a known package without dependencies yields its executables followed by its directories |
| Discovery.DiscoverDepsSingleton | src/deps/pip/cache.ts:46-49 | the loop over one dependency yields that dependency's discovery, failure included |
| Discovery.DiscoverDepsAppend | src/deps/pip/cache.ts:46-49 | splitting the dependency list splits the result: earlier dependencies' paths precede later ones', and a failure in the earlier part wins |
| Discovery.DiscoverDepsOutcome | src/deps/pip/cache.ts:46-48 | the loop succeeds iff every dependency succeeds; a failure is that of the first failing dependency in declared order |
| Discovery.DiscoverDepsMembers | src/deps/pip/cache.ts:46-49 | a path is in the loop's result iff it is in some dependency's discovery |
| Discovery.DiscoverFailureIsReachableUnknown | src/deps/pip/cache.ts:38-48 | a failure names a package that is unknown and is the root or one of its transitive dependencies |
| Discovery.DiscoverSuccessKnowsReachable | src/deps/pip/cache.ts:38-49 | after a success every transitive dependency of the root is known |
| Discovery.DiscoverSucceedsIffClosed | src/deps/pip/cache.ts:38-49 | discovery succeeds iff the root and all its transitive dependencies are known, so no partial result escapes a failure |
| Discovery.DiscoverContents | src/deps/pip/cache.ts:44-49 | a path is in the result iff it is an executable or directory of a package the root reaches |
| Discovery.DiscoverLength | src/deps/pip/cache.ts:44-49 | no deduplication: the result's length is the count of own paths summed over every occurrence of a package in the dependency tree |
| Discovery.DiscoverDepsLength | src/deps/pip/cache.ts:46-49 | the loop's result length is the sum of the dependencies' path counts |
| Discovery.DiscoverPreorder | src/deps/pip/cache.ts:44-49 | depth-first pre-order: own paths, then the earlier dependencies' paths, then the i-th dependency's whole discovery, then the later ones' |
| PipCache.ContentInfo | src/deps/pip/cache.ts:28-35 | succeeds iff discovery succeeds and fails with the same error; on success it keeps the name, uses the static key plus `-content`, and uses the discovered paths; an unknown root fails with that name |
| PipCache.ContentInfoShape | src/deps/pip/cache.ts:31-33 | the content key depends only on the OS type and the name; the package's own paths open the path list |
| PipCache.CachePackage | src/deps/pip/cache.ts:64-67 | the save request is exactly the glob descriptor's two patterns, the lower-cased name first and the name as given second, so never empty, under the static key |
| PipCache.RestoreHit | src/deps/pip/cache.ts:72 | true exactly when the service returned a key, false when it returned none |
| PipCache.RestorePackage | src/deps/pip/cache.ts:69-73 | reports a hit iff the service, asked with the same paths and key that saving uses, returns a key |
| PipCache.SaveAndRestoreAgree | src/deps/pip/cache.ts:64-72 | save and restore address the service with the static descriptor's key and the same glob patterns |
| PipCache.ScenarioSingle | src/deps/pip/cache.ts:28-50 | a package without dependencies and directory `.../requests` has content paths `[".../requests"]` |
| PipCache.ScenarioSiblings | src/deps/pip/cache.ts:44-49 | `app` with dependencies `[lib1, lib2]` yields `[d0, d1, d2]` |
| PipCache.ScenarioDepthFirst | src/deps/pip/cache.ts:44-49 | A with dependencies [B, C], and B with [D], yields A's, B's, D's, then C's paths |
| PipCache.ScenarioDuplicateDependency | src/deps/pip/cache.ts:45-48 | a dependency declared twice contributes its paths twice |
| PipCache.ScenarioUnknownDependency | src/deps/pip/cache.ts:39-48 | an unknown second dependency fails the whole discovery with its name, even after a known first dependency |

## Left out

- The cache service calls `saveCache` and `restoreCache` (`src/deps/pip/cache.ts:66, 71`) are external I/O. The model keeps the (paths, key) request and the mapping from the optional answer to a boolean. Compression, upload and service errors are not modelled.
- CachePackage: models the request handed to the save call, not the save itself. The call returns nothing, and its failures belong to the service.
- `showPackageInfo` (in `./info`) and `initContext` (in `./context`) are not part of this model. They become the metadata map and the `userSitePackage` field of `Host`.
- Errors raised by the metadata query itself are not modelled. For example, `executables()` may fail on I/O. Only the unknown-package error is.
- `os.type()`, `os.homedir()`, `path.join` and `toLowerCase` are host and library behaviour. They are uninterpreted fields of `Host`.
- `async`/`await` sequencing is not modelled. Each step completes before the next starts, so it does not change any result.
- Dependency cycles are not modelled. When the walk reaches a cycle the source recurses without end. The `Ranked` precondition excludes cycles instead of describing that divergence.
- Discover, CollectPaths and ContentInfo require `Ranked` of the whole metadata map. They therefore exclude metadata holding a cycle the source never traverses, on which the source does terminate: a cycle unreachable from the root (`{A: [], B: [C], C: [B]}` yields A's paths), or one behind an earlier unknown dependency (`{A: [X, B], B: [A]}` with X unknown fails on X before reaching B). A precondition on the reachable part only would admit the first example. The second lies on a cycle the root reaches, so only a precondition on the packages the walk visits before its first failure would admit it. The model covers neither.
- The mutable `PackageCacheInfo` class and its empty default fields are modelled as an immutable datatype. The source fills every field before returning, so the defaults are never observed.

/** Cache keys and the two descriptors that need no package metadata:
    the static descriptor (`getPackageCacheInfo`) and the glob descriptor
    used when saving and restoring (`getCacheInfo`). */
module CacheKeys {
  import opened Wrappers

  /** The host facts the key derivation reads. `join` stands for `path.join`
      and `lower` for `String.prototype.toLowerCase`; both are left
      uninterpreted. `userSitePackage` is what the context query reports. */
  datatype Host = Host(
    osType: string,
    homeDir: string,
    userSitePackage: string,
    join: seq<string> -> string,
    lower: string -> string)

  /** A descriptor of what to cache for one package and under which key. */
  datatype PackageCacheInfo = PackageCacheInfo(name: string, key: string, paths: seq<string>)

  /** The anonymous (paths, key) pair handed to the cache service. */
  datatype CacheInfo = CacheInfo(paths: seq<string>, key: string)

  const InfoDirectory: string := ".pip_cache_info"
  const ContentSuffix: string := "-content"

  /** Everything of a static key that precedes the package name. */
  function KeyPrefix(osType: string): string {
    "pip-" + osType + "-"
  }

  /** `pip-<os type>-<package name>`: a fixed `pip-` head, the OS type, a dash,
      and the package name as its whole tail. */
  function StaticKey(osType: string, name: string): (key: string)
    ensures |key| == 5 + |osType| + |name|
    ensures key[..4] == "pip-"
    ensures key[4..4 + |osType|] == osType
    ensures key[4 + |osType|] == '-'
    ensures key[5 + |osType|..] == name
  {
    KeyPrefix(osType) + name
  }

  /** The key of the content descriptor: the static key of the same package,
      followed by `-content`. */
  function ContentKey(osType: string, name: string): (key: string)
    ensures |key| == |StaticKey(osType, name)| + |ContentSuffix|
    ensures StaticKey(osType, name) <= key
    ensures key[|StaticKey(osType, name)|..] == ContentSuffix
  {
    StaticKey(osType, name) + ContentSuffix
  }

  /** Recovers the package name from a static key built for `osType`;
      the inverse of `StaticKey`. */
  function ParseStaticKey(osType: string, key: string): (r: Option<string>)
    ensures r.Some? ==> StaticKey(osType, r.value) == key
    ensures r.None? ==> forall name :: StaticKey(osType, name) != key
  {
    var prefix := KeyPrefix(osType);
    if |prefix| <= |key| && key[..|prefix|] == prefix then
      assert key == prefix + key[|prefix|..];
      Some(key[|prefix|..])
    else
      None
  }

  lemma ParseStaticKeyRoundTrip(osType: string, name: string)
    ensures ParseStaticKey(osType, StaticKey(osType, name)) == Some(name)
  {
  }

  /** For one operating system, distinct package names get distinct keys. */
  lemma StaticKeyInjective(osType: string, name1: string, name2: string)
    ensures StaticKey(osType, name1) == StaticKey(osType, name2) ==> name1 == name2
  {
  }

  /** For one package name, distinct operating systems get distinct keys. */
  lemma StaticKeyDistinguishesOs(osType1: string, osType2: string, name: string)
    ensures osType1 != osType2 ==> StaticKey(osType1, name) != StaticKey(osType2, name)
  {
  }

  /** Jointly, OS type and name do not determine the key: the dash that
      separates them may also occur inside either. */
  lemma StaticKeyAmbiguousAcrossOsAndName()
    ensures StaticKey("a-b", "c") == StaticKey("a", "b-c")
  {
  }

  /** The content key never equals the static key of the same package. */
  lemma ContentKeyDiffersFromStaticKey(osType: string, name: string)
    ensures ContentKey(osType, name) != StaticKey(osType, name)
    ensures |ContentKey(osType, name)| == |StaticKey(osType, name)| + |ContentSuffix|
  {
  }

  /** Keys of the two kinds share one namespace: the content key of a package
      is the static key of the package whose name has `-content` appended. */
  lemma ContentKeyIsStaticKeyOfSuffixedName(osType: string, name: string)
    ensures ContentKey(osType, name) == StaticKey(osType, name + ContentSuffix)
  {
  }

  /** `getPackageCacheInfo`: the static descriptor, whose single path is the
      package's JSON info file under `~/.pip_cache_info`. */
  function StaticInfo(host: Host, name: string): (r: PackageCacheInfo)
    ensures r.name == name
    ensures ParseStaticKey(host.osType, r.key) == Some(name)
    ensures |r.paths| == 1
    ensures r.paths[0] == host.join([host.homeDir, InfoDirectory, name + ".json"])
  {
    ParseStaticKeyRoundTrip(host.osType, name);
    PackageCacheInfo(
      name,
      StaticKey(host.osType, name),
      [host.join([host.homeDir, InfoDirectory, name + ".json"])])
  }

  /** `getCacheInfo`: two glob patterns under the user site-packages directory,
      the lower-cased name first and the name as given second, and the same
      key as the static descriptor. */
  function GlobInfo(host: Host, name: string): (r: CacheInfo)
    ensures |r.paths| == 2
    ensures r.paths[0] == host.join([host.userSitePackage, host.lower(name) + "*"])
    ensures r.paths[1] == host.join([host.userSitePackage, name + "*"])
    ensures r.key == StaticInfo(host, name).key
  {
    CacheInfo(
      [ host.join([host.userSitePackage, host.lower(name) + "*"]),
        host.join([host.userSitePackage, name + "*"]) ],
      StaticKey(host.osType, name))
  }

  /** The key and the name of a static descriptor depend on the operating
      system type and the package name only, never on the directories. */
  lemma StaticKeyIgnoresDirectories(host1: Host, host2: Host, name: string)
    requires host1.osType == host2.osType
    ensures StaticInfo(host1, name).key == StaticInfo(host2, name).key
    ensures GlobInfo(host1, name).key == GlobInfo(host2, name).key
  {
  }

  /** When the name is already lower case the two glob patterns coincide:
      the pair is a list with a repeated entry, not a set. */
  lemma GlobPatternsCoincideOnLowerCase(host: Host, name: string)
    requires host.lower(name) == name
    ensures GlobInfo(host, name).paths[0] == GlobInfo(host, name).paths[1]
  {
  }
}

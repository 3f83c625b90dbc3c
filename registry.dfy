/**
 * The package registry: an append-only install history per package name and a
 * two-level cache from package and version token to the resolved flake URL.
 * The value-level functions give the meaning of each operation on the two maps;
 * the class `PackageRegistry` is the object the program updates in place.
 */
module Registry {
  import opened Wrappers

  /** One install or pin event. `installDate` is an opaque RFC 3339 timestamp. */
  datatype PackageInfo = PackageInfo(
    name: string,
    version: string,
    flakeUrl: string,
    installDate: string,
    flakeLock: Option<string>)

  /** package name -> events for that name, oldest first */
  type History = map<string, seq<PackageInfo>>

  /** package name -> version token -> flake URL */
  type VersionCache = map<string, map<string, string>>

  /** The events recorded for `name`, or `None` when there are none (`HashMap::get`). */
  function HistoryOf(packages: History, name: string): Option<seq<PackageInfo>> {
    if name in packages then Some(packages[name]) else None
  }

  /** `HistoryOf` with an absent entry read as the empty sequence. */
  function EventsOf(packages: History, name: string): seq<PackageInfo> {
    if name in packages then packages[name] else []
  }

  /** `packages` after `entry(p.name).or_insert_with(Vec::new).push(p)`. */
  function Appended(packages: History, p: PackageInfo): (r: History)
    ensures r.Keys == packages.Keys + {p.name}
    ensures HistoryOf(r, p.name) == Some(EventsOf(packages, p.name) + [p])
    ensures forall n :: n != p.name ==> HistoryOf(r, n) == HistoryOf(packages, n)
  {
    packages[p.name := EventsOf(packages, p.name) + [p]]
  }

  /** The cached URL for `(package, version)`, if any (`get(package).and_then(|m| m.get(version))`). */
  function Lookup(cache: VersionCache, package: string, version: string): Option<string> {
    if package in cache && version in cache[package] then Some(cache[package][version]) else None
  }

  /** `cache` after `entry(package).or_insert_with(HashMap::new).insert(version, url)`. */
  function Inserted(cache: VersionCache, package: string, version: string, url: string): (r: VersionCache)
    ensures r.Keys == cache.Keys + {package}
    ensures Lookup(r, package, version) == Some(url)
    ensures forall pk, v :: (pk, v) != (package, version) ==> Lookup(r, pk, v) == Lookup(cache, pk, v)
  {
    var inner := if package in cache then cache[package] else map[];
    cache[package := inner[version := url]]
  }

  /** Recording `events` one after another, oldest first, starting from `packages`. */
  function AppendedAll(packages: History, events: seq<PackageInfo>): History
    decreases |events|
  {
    if events == [] then packages
    else Appended(AppendedAll(packages, events[..|events| - 1]), events[|events| - 1])
  }

  /** The events of `events` that are about `name`, in their original order. */
  function EventsNamed(events: seq<PackageInfo>, name: string): seq<PackageInfo>
    decreases |events|
  {
    if events == [] then []
    else
      var last := events[|events| - 1];
      EventsNamed(events[..|events| - 1], name) + (if last.name == name then [last] else [])
  }

  /**
   * The history is append-only and chronological: after recording a series of
   * events on an empty registry, each name's history is exactly the events with
   * that name, in the order they were recorded, repeats included.
   */
  lemma {:induction false} HistoryIsChronological(events: seq<PackageInfo>, name: string)
    ensures EventsOf(AppendedAll(map[], events), name) == EventsNamed(events, name)
    decreases |events|
  {
    if events != [] {
      HistoryIsChronological(events[..|events| - 1], name);
    }
  }

  /** The registry object that one command invocation loads, updates and saves. */
  class PackageRegistry {
    var packages: History
    var versionCache: VersionCache

    /** `PackageRegistry::new()`: nothing recorded, nothing cached. */
    constructor ()
      ensures packages == map[] && versionCache == map[]
    {
      packages := map[];
      versionCache := map[];
    }

    /** `add_package`: append `p` to the history of `p.name`; the cache is untouched. */
    method AddPackage(p: PackageInfo)
      modifies this
      ensures packages == Appended(old(packages), p)
      ensures GetPackageHistory(p.name) == Some(old(EventsOf(packages, p.name)) + [p])
      ensures forall n :: n != p.name ==> GetPackageHistory(n) == old(GetPackageHistory(n))
      ensures versionCache == old(versionCache)
    {
      packages := Appended(packages, p);
    }

    /** `get_package_history`: the recorded events for `name`, if any. */
    function GetPackageHistory(name: string): (r: Option<seq<PackageInfo>>)
      reads this
      ensures r.Some? <==> name in packages
      ensures r.Some? ==> r.value == packages[name]
    {
      HistoryOf(packages, name)
    }

    /**
     * `cache_version`: afterwards `(package, version)` maps to `url`; every other
     * entry of the cache, and the history, are unchanged.
     */
    method CacheVersion(package: string, version: string, url: string)
      modifies this
      ensures versionCache == Inserted(old(versionCache), package, version, url)
      ensures GetCachedVersion(package, version) == Some(url)
      ensures forall pk, v :: (pk, v) != (package, version) ==>
                GetCachedVersion(pk, v) == old(GetCachedVersion(pk, v))
      ensures packages == old(packages)
    {
      versionCache := Inserted(versionCache, package, version, url);
    }

    /** `get_cached_version`: the URL cached for `version` of `package`, if any. */
    function GetCachedVersion(package: string, version: string): (r: Option<string>)
      reads this
      ensures r.Some? <==> package in versionCache && version in versionCache[package]
      ensures r.Some? ==> r.value == versionCache[package][version]
    {
      Lookup(versionCache, package, version)
    }
  }
}

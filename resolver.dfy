/**
 * Turning a user's version token into a flake URL: classification of the token
 * (`build_flake_url`) and, for semantic versions, the cached search over the
 * nixpkgs channels (`resolve_semantic_version`).
 *
 * The `nix eval <channel>#<package>.version --json` calls are replaced by an
 * oracle: a sequence holding, for each channel in `Channels`, what probing that
 * channel would yield. The number of probes actually issued is returned.
 */
module Resolver {
  import opened Wrappers
  import opened Strings
  import opened Registry

  /** The channels probed by semantic resolution, in probing order. */
  const Channels: seq<string> := ["nixpkgs/nixos-unstable", "nixpkgs/nixos-23.11", "nixpkgs/nixos-23.05"]

  /** What one `nix eval` probe of a channel yields. */
  datatype ProbeOutcome =
    | SpawnFailed               // the process could not be run: fatal (`?` on `output()`)
    | ExitFailure               // the command ran and reported failure: channel skipped
    | InvalidUtf8               // success, but stdout is not UTF-8: fatal (`?` on `from_utf8`)
    | NotAString                // stdout is not JSON, or JSON that is not a string: channel skipped
    | Reported(version: string) // stdout is the JSON string `version`

  /** The errors that abort a resolution. */
  datatype ResolveError = SpawnError | Utf8Error

  /** Outcome of a resolution: the URL or error, how many channels were probed, and the cache afterwards. */
  datatype Resolution = Resolution(url: Result<string, ResolveError>, probes: nat, cache: VersionCache)

  predicate IsFatal(o: ProbeOutcome) {
    o.SpawnFailed? || o.InvalidUtf8?
  }

  function ErrorOf(o: ProbeOutcome): ResolveError
    requires IsFatal(o)
  {
    if o.SpawnFailed? then SpawnError else Utf8Error
  }

  /** The channel reported a version that starts with the requested token. */
  predicate IsMatch(o: ProbeOutcome, version: string) {
    o.Reported? && StartsWith(o.version, version)
  }

  /** Probing channels `lo` up to `hi` neither failed fatally nor matched. */
  ghost predicate Undecided(outcomes: seq<ProbeOutcome>, version: string, lo: nat, hi: nat)
    requires lo <= hi <= |outcomes|
  {
    forall j :: lo <= j < hi ==> !IsFatal(outcomes[j]) && !IsMatch(outcomes[j], version)
  }

  /** Where the channel loop stops: a fatal probe, a matching channel, or the end of the list. */
  datatype Scan = Fatal(at: nat, error: ResolveError) | Match(at: nat) | Exhausted

  /** The first channel, from index `i` on, whose probe is fatal or matches. */
  function ScanFrom(outcomes: seq<ProbeOutcome>, version: string, i: nat): (r: Scan)
    requires i <= |outcomes|
    ensures r.Fatal? ==> && i <= r.at < |outcomes| && IsFatal(outcomes[r.at])
                         && r.error == ErrorOf(outcomes[r.at]) && Undecided(outcomes, version, i, r.at)
    ensures r.Match? ==> && i <= r.at < |outcomes| && IsMatch(outcomes[r.at], version)
                         && Undecided(outcomes, version, i, r.at)
    ensures r.Exhausted? ==> Undecided(outcomes, version, i, |outcomes|)
    decreases |outcomes| - i
  {
    if i == |outcomes| then Exhausted
    else if IsFatal(outcomes[i]) then Fatal(i, ErrorOf(outcomes[i]))
    else if IsMatch(outcomes[i], version) then Match(i)
    else ScanFrom(outcomes, version, i + 1)
  }

  /** The scan is determined by its contract: the first decisive channel, or none. */
  lemma ScanIsFirstDecisive(outcomes: seq<ProbeOutcome>, version: string, k: nat)
    requires k <= |outcomes| && Undecided(outcomes, version, 0, k)
    ensures k < |outcomes| && IsFatal(outcomes[k]) ==>
              ScanFrom(outcomes, version, 0) == Fatal(k, ErrorOf(outcomes[k]))
    ensures k < |outcomes| && IsMatch(outcomes[k], version) ==> ScanFrom(outcomes, version, 0) == Match(k)
    ensures k == |outcomes| ==> ScanFrom(outcomes, version, 0) == Exhausted
  {
  }

  /** The fallback, unpinned reference for `package` (`nixpkgs#<package>`). */
  function DefaultUrl(package: string): string {
    "nixpkgs#" + package
  }

  /** The reference into a probed channel (`<channel>#<package>`). */
  function ChannelUrl(channel: string, package: string): string {
    channel + "#" + package
  }

  /**
   * `resolve_semantic_version` on values: cache check, then the channel loop,
   * then either the matching channel or the fallback, cached in both cases.
   */
  function Resolve(cache: VersionCache, package: string, version: string,
                   outcomes: seq<ProbeOutcome>): (r: Resolution)
    requires |outcomes| == |Channels|
    ensures r.probes <= |Channels|
    ensures r.url.Ok? ==> Lookup(r.cache, package, version) == Some(r.url.value)
    ensures r.url.Err? ==> r.cache == cache
  {
    match Lookup(cache, package, version)
    case Some(url) => Resolution(Ok(url), 0, cache)
    case None =>
      match ScanFrom(outcomes, version, 0)
      case Fatal(i, e) => Resolution(Err(e), i + 1, cache)
      case Match(i) =>
        var url := ChannelUrl(Channels[i], package);
        Resolution(Ok(url), i + 1, Inserted(cache, package, version, url))
      case Exhausted =>
        var url := DefaultUrl(package);
        Resolution(Ok(url), |Channels|, Inserted(cache, package, version, url))
  }

  /** A cached pair is returned as is, with no probe and no change to the cache. */
  lemma CacheHit(cache: VersionCache, package: string, version: string,
                 outcomes: seq<ProbeOutcome>, url: string)
    requires |outcomes| == |Channels|
    requires Lookup(cache, package, version) == Some(url)
    ensures Resolve(cache, package, version, outcomes) == Resolution(Ok(url), 0, cache)
  {
  }

  /**
   * On a cache miss the first channel whose reported version starts with the
   * token wins, provided no earlier probe was fatal or matched; the channels
   * after it are not probed, and its URL is cached.
   */
  lemma FirstMatchWins(cache: VersionCache, package: string, version: string,
                       outcomes: seq<ProbeOutcome>, k: nat)
    requires |outcomes| == |Channels|
    requires Lookup(cache, package, version) == None
    requires k < |Channels| && IsMatch(outcomes[k], version)
    requires forall j :: 0 <= j < k ==> !IsFatal(outcomes[j]) && !IsMatch(outcomes[j], version)
    ensures var url := ChannelUrl(Channels[k], package);
            Resolve(cache, package, version, outcomes) ==
              Resolution(Ok(url), k + 1, Inserted(cache, package, version, url))
  {
  }

  /** On a cache miss with no fatal probe and no match, the fallback is returned and cached. */
  lemma NoMatchFallsBack(cache: VersionCache, package: string, version: string,
                         outcomes: seq<ProbeOutcome>)
    requires |outcomes| == |Channels|
    requires Lookup(cache, package, version) == None
    requires forall j :: 0 <= j < |outcomes| ==> !IsFatal(outcomes[j]) && !IsMatch(outcomes[j], version)
    ensures var url := DefaultUrl(package);
            Resolve(cache, package, version, outcomes) ==
              Resolution(Ok(url), |Channels|, Inserted(cache, package, version, url))
  {
  }

  /** On a cache miss a fatal probe ends the resolution with its error; nothing is cached. */
  lemma FatalProbeAborts(cache: VersionCache, package: string, version: string,
                         outcomes: seq<ProbeOutcome>, k: nat)
    requires |outcomes| == |Channels|
    requires Lookup(cache, package, version) == None
    requires k < |Channels| && IsFatal(outcomes[k])
    requires forall j :: 0 <= j < k ==> !IsFatal(outcomes[j]) && !IsMatch(outcomes[j], version)
    ensures Resolve(cache, package, version, outcomes) ==
              Resolution(Err(ErrorOf(outcomes[k])), k + 1, cache)
  {
  }

  /**
   * A successful resolution makes the next one for the same pair a cache hit:
   * whatever the channels report then, no probe is issued and the same URL is returned.
   */
  lemma ResolveIdempotent(cache: VersionCache, package: string, version: string,
                          first: seq<ProbeOutcome>, second: seq<ProbeOutcome>)
    requires |first| == |Channels| && |second| == |Channels|
    requires Resolve(cache, package, version, first).url.Ok?
    ensures var r := Resolve(cache, package, version, first);
            Resolve(r.cache, package, version, second) == Resolution(r.url, 0, r.cache)
  {
  }

  /** Write-once cache: resolution only adds the requested pair and never changes another entry. */
  lemma ResolveOnlyAddsItsPair(cache: VersionCache, package: string, version: string,
                               outcomes: seq<ProbeOutcome>, pk: string, v: string)
    requires |outcomes| == |Channels|
    requires Lookup(cache, pk, v).Some? || (pk, v) != (package, version)
    ensures Lookup(Resolve(cache, package, version, outcomes).cache, pk, v) == Lookup(cache, pk, v)
  {
  }

  /** The example of a mocked oracle: unstable reports "14.1.0", so "14.1" resolves there in one probe. */
  lemma PrefixSelectsFirstChannel(package: string)
    ensures Resolve(map[], package, "14.1",
                    [Reported("14.1.0"), Reported("14.0.9"), ExitFailure]).url
            == Ok("nixpkgs/nixos-unstable#" + package)
    ensures Resolve(map[], package, "14.1",
                    [Reported("14.1.0"), Reported("14.0.9"), ExitFailure]).probes == 1
  {
    var outcomes := [Reported("14.1.0"), Reported("14.0.9"), ExitFailure];
    assert StartsWith("14.1.0", "14.1");
    FirstMatchWins(map[], package, "14.1", outcomes, 0);
    assert ChannelUrl(Channels[0], package) == "nixpkgs/nixos-unstable#" + package;
  }

  /** `resolve_semantic_version`, updating the registry in place. */
  method ResolveSemanticVersion(reg: PackageRegistry, package: string, version: string,
                                outcomes: seq<ProbeOutcome>)
    returns (url: Result<string, ResolveError>, probes: nat)
    requires |outcomes| == |Channels|
    modifies reg
    ensures var r := Resolve(old(reg.versionCache), package, version, outcomes);
            url == r.url && probes == r.probes && reg.versionCache == r.cache
    ensures reg.packages == old(reg.packages)
  {
    var cached := reg.GetCachedVersion(package, version);
    if cached.Some? {
      return Ok(cached.value), 0;
    }
    var i := 0;
    while i < |Channels|
      invariant 0 <= i <= |Channels|
      invariant Undecided(outcomes, version, 0, i)
      invariant reg.versionCache == old(reg.versionCache) && reg.packages == old(reg.packages)
    {
      var o := outcomes[i];
      if IsFatal(o) {
        ScanIsFirstDecisive(outcomes, version, i);
        return Err(ErrorOf(o)), i + 1;
      }
      if o.Reported? && StartsWith(o.version, version) {
        var channelUrl := ChannelUrl(Channels[i], package);
        reg.CacheVersion(package, version, channelUrl);
        ScanIsFirstDecisive(outcomes, version, i);
        return Ok(channelUrl), i + 1;
      }
      i := i + 1;
    }
    var fallback := DefaultUrl(package);
    reg.CacheVersion(package, version, fallback);
    ScanIsFirstDecisive(outcomes, version, i);
    return Ok(fallback), |Channels|;
  }

  /** The branch of `build_flake_url` a token takes. */
  datatype TokenKind = Unpinned | ChannelPin | CommitPin | Semantic | ChannelFallback

  /**
   * The tests of `build_flake_url`, in order. The first requires exactly one '.'
   * and every character a digit; `v.len()` is the length in UTF-8 bytes. What
   * each branch ends up covering is stated in characters: the first is dead, a
   * token of at least 7 hex characters pins a commit, a dotted token is
   * semantic, and every other token is a channel name.
   */
  function Classify(version: Option<string>): (r: TokenKind)
    ensures r == Unpinned <==> version.None?
    ensures r != ChannelPin
    ensures r == CommitPin <==> version.Some? && |version.value| >= 7 && AllHex(version.value)
    ensures r == Semantic <==> version.Some? && '.' in version.value
    ensures r == ChannelFallback <==>
              version.Some? && '.' !in version.value && !(|version.value| >= 7 && AllHex(version.value))
  {
    match version
    case None => Unpinned
    case Some(v) =>
      assert Utf8Len(v) >= 7 && AllHex(v) <==> |v| >= 7 && AllHex(v) by {
        if AllHex(v) { HexUtf8Len(v); }
      }
      assert '.' in v ==> !AllHex(v) by {
        if '.' in v { var i :| 0 <= i < |v| && v[i] == '.'; assert !IsAsciiHexDigit(v[i]); }
      }
      if CountChar(v, '.') == 1 && AllDigits(v) then ChannelPin
      else if Utf8Len(v) >= 7 && AllHex(v) then CommitPin
      else if '.' in v then Semantic
      else ChannelFallback
  }

  /** The reference into a named channel (`nixpkgs/<channel>#<package>`). */
  function ChannelPinUrl(v: string, package: string): string {
    "nixpkgs/" + v + "#" + package
  }

  /** The reference into a nixpkgs commit (`github:NixOS/nixpkgs/<rev>#<package>`). */
  function CommitUrl(v: string, package: string): string {
    "github:NixOS/nixpkgs/" + v + "#" + package
  }

  /** `build_flake_url` on values. Only a semantic token consults the cache or the channels. */
  function FlakeUrl(cache: VersionCache, package: string, version: Option<string>,
                    outcomes: seq<ProbeOutcome>): (r: Resolution)
    requires |outcomes| == |Channels|
    ensures Classify(version) != Semantic ==> r.probes == 0 && r.cache == cache && r.url.Ok?
  {
    match version
    case None => Resolution(Ok(DefaultUrl(package)), 0, cache)
    case Some(v) =>
      var channel := Resolution(Ok(ChannelPinUrl(v, package)), 0, cache);
      match Classify(version)
      case ChannelPin => channel  // never taken: see ChannelPinIsDead
      case CommitPin => Resolution(Ok(CommitUrl(v, package)), 0, cache)
      case Semantic => Resolve(cache, package, v, outcomes)
      case ChannelFallback => channel
  }

  /** No token: the unpinned reference, no probe, the registry untouched. */
  lemma NoTokenIsUnpinned(cache: VersionCache, package: string, outcomes: seq<ProbeOutcome>)
    requires |outcomes| == |Channels|
    ensures FlakeUrl(cache, package, None, outcomes) == Resolution(Ok("nixpkgs#" + package), 0, cache)
  {
  }

  /** The direct channel branch is dead: no string has exactly one '.' and only digits. */
  lemma ChannelPinIsDead(v: string)
    ensures Classify(Some(v)) != ChannelPin
  {
    if AllDigits(v) {
      DigitsHaveNoDot(v);
    }
  }

  /** So a token that looks like a channel, such as "23.11", is resolved as a semantic version. */
  lemma ChannelLikeTokenIsSemantic(cache: VersionCache, package: string, outcomes: seq<ProbeOutcome>)
    requires |outcomes| == |Channels|
    ensures Classify(Some("23.11")) == Semantic
    ensures FlakeUrl(cache, package, Some("23.11"), outcomes) == Resolve(cache, package, "23.11", outcomes)
  {
  }

  /** Any token with a '.' reaches semantic resolution. */
  lemma DottedTokenIsSemantic(cache: VersionCache, package: string, v: string,
                              outcomes: seq<ProbeOutcome>)
    requires |outcomes| == |Channels|
    requires '.' in v
    ensures Classify(Some(v)) == Semantic
    ensures FlakeUrl(cache, package, Some(v), outcomes) == Resolve(cache, package, v, outcomes)
  {
  }

  /** A dot-free token of at least 7 hexadecimal digits (either case) pins a nixpkgs commit. */
  lemma HexTokenIsCommit(cache: VersionCache, package: string, v: string,
                         outcomes: seq<ProbeOutcome>)
    requires |outcomes| == |Channels|
    requires |v| >= 7 && AllHex(v)
    ensures FlakeUrl(cache, package, Some(v), outcomes) ==
              Resolution(Ok("github:NixOS/nixpkgs/" + v + "#" + package), 0, cache)
  {
  }

  /**
   * A dot-free token that is not a long enough hexadecimal string (the empty
   * token and short hex strings included) is used as a channel name.
   */
  lemma OtherTokenIsChannel(cache: VersionCache, package: string, v: string,
                            outcomes: seq<ProbeOutcome>)
    requires |outcomes| == |Channels|
    requires '.' !in v && !(|v| >= 7 && AllHex(v))
    ensures FlakeUrl(cache, package, Some(v), outcomes) ==
              Resolution(Ok("nixpkgs/" + v + "#" + package), 0, cache)
  {
  }

  /**
   * Asking again for the same package and token, after a successful answer,
   * gives the same URL without any probe and leaves the cache as it was.
   */
  lemma FlakeUrlIdempotent(cache: VersionCache, package: string, version: Option<string>,
                           first: seq<ProbeOutcome>, second: seq<ProbeOutcome>)
    requires |first| == |Channels| && |second| == |Channels|
    requires FlakeUrl(cache, package, version, first).url.Ok?
    ensures var r := FlakeUrl(cache, package, version, first);
            FlakeUrl(r.cache, package, version, second) == Resolution(r.url, 0, r.cache)
  {
  }

  /** `build_flake_url`, resolving semantic tokens against the registry in place. */
  method BuildFlakeUrl(reg: PackageRegistry, package: string, version: Option<string>,
                       outcomes: seq<ProbeOutcome>)
    returns (url: Result<string, ResolveError>, probes: nat)
    requires |outcomes| == |Channels|
    modifies reg
    ensures var r := FlakeUrl(old(reg.versionCache), package, version, outcomes);
            url == r.url && probes == r.probes && reg.versionCache == r.cache
    ensures reg.packages == old(reg.packages)
  {
    match version
    case None =>
      return Ok(DefaultUrl(package)), 0;
    case Some(v) =>
      probes := 0;
      if CountChar(v, '.') == 1 && AllDigits(v) {
        // never taken: see ChannelPinIsDead
        url := Ok(ChannelPinUrl(v, package));
      } else if Utf8Len(v) >= 7 && AllHex(v) {
        url := Ok(CommitUrl(v, package));
      } else if '.' in v {
        url, probes := ResolveSemanticVersion(reg, package, v, outcomes);
      } else {
        url := Ok(ChannelPinUrl(v, package));
      }
  }
}

# nixbrew version resolution and package registry, in Dafny

nixbrew is a Homebrew-like front end to the `nix` command-line tool. Nearly
every command passes its arguments through to `nix`. The exception is the
layer this project models:

- **`build_flake_url`** turns a package name and an optional version token
  into a flake reference. The token can be absent, a channel-looking token
  such as `23.11`, a commit hash, a semantic version such as `14.1.0`, or any
  other word.
- **`resolve_semantic_version`** handles semantic versions. It looks in the
  registry's cache first. On a miss it asks `nix eval` for the package's
  version in three nixpkgs channels, in order, and picks the first channel
  whose reported version starts with the token. If none matches it falls back
  to the unpinned reference. Either answer is cached.
- **`PackageRegistry`** keeps two maps. One holds each package's install
  history, an append-only sequence of `PackageInfo` events. The other is the
  cache from package and version token to the resolved URL.
- **The profile index search** is used by uninstall and rollback. It finds
  the first line of `nix profile list` output that mentions
  `nixpkgs#<package>` and takes that line's first whitespace-separated token.

Modules:

- `wrappers.dfy` (`Wrappers`): `Option` and `Result`.
- `strings.dfy` (`Strings`): the Rust `str` operations the core uses:
  `starts_with`, `contains`, `matches(c).count()`, `is_ascii_digit`,
  `is_ascii_hexdigit`, the UTF-8 byte length `len()`, `char::is_whitespace`
  and `split_whitespace().next()`.
- `registry.dfy` (`Registry`): `PackageInfo`, and value-level functions that
  give the meaning of each registry operation on the two maps. It also holds
  the class `PackageRegistry`, whose methods update those maps in place and
  are specified by the functions.
- `resolver.dfy` (`Resolver`): token classification and semantic resolution.
  Each has a specification on values (`Classify`, `FlakeUrl`, `Resolve`), a
  method that updates the registry object in place (`BuildFlakeUrl`,
  `ResolveSemanticVersion`), and lemmas about the specification.
- `profile.dfy` (`Profile`): the index search over profile lines, in its uninstall and rollback forms.

The `nix eval` probes are modelled as an oracle. It is a sequence that says,
for each channel in order, what the probe would yield:
- the process could not be spawned (fatal);
- the command failed (skip the channel);
- it succeeded but its output is not UTF-8 (fatal);
- the output is not a JSON string (skip the channel);
- it reported a version string.

The resolver returns the number of probes it actually issued, so "no probe"
and "later channels are not probed" are stated about that count.

Where the code and its intended design differ, the model follows the code:

- The first test of `build_flake_url` (src/main.rs:411) needs exactly one `.`
  *and* only ASCII digits. No string passes both, so the direct channel pin
  never fires. A token such as `23.11` goes to semantic resolution instead.
  The model keeps the dead test and proves it dead (`ChannelPinIsDead`,
  `ChannelLikeTokenIsSemantic`).
- The commit-hash test compares `v.len()` with 7, and `v.len()` counts UTF-8
  bytes. The model compares the byte length too, then proves that for an
  all-hex token the byte length equals the character count (`HexUtf8Len`).
  So the threshold is "at least 7 characters".
- The empty token has no `.` and is not long hex, so it is used as a channel
  name and gives `nixpkgs/#<package>`.
- The cache is write-once because of how it is called, not because of how it
  is built. `cache_version` overwrites whatever is there, but resolution only
  calls it after a miss (`ResolveOnlyAddsItsPair`). The fallback URL is cached
  too, so a later run never probes again for that pair (`ResolveIdempotent`).

## Model

| member | source | states |
|---|---|---|
| `Strings.CountChar` | src/main.rs:411 | the count of a character is at most the length, and is zero exactly when the character does not occur |
| `Strings.DigitsHaveNoDot` | src/main.rs:411 | a string made only of ASCII digits contains no `.` |
| `Strings.HexUtf8Len` | src/main.rs:414 | for an all-hex string, the UTF-8 byte length `len()` equals the number of characters |
| `Strings.TrimStart` | src/main.rs:326 | the leading-whitespace skip of `split_whitespace()`: the result is a suffix of the line, everything dropped is whitespace, and the result is empty or starts with non-whitespace |
| `Strings.TokenPrefix` | src/main.rs:326 | the token `split_whitespace()` then takes: a whitespace-free prefix that ends at whitespace or at the end of the string |
| `Strings.FirstToken` | src/main.rs:326 | `split_whitespace().next()` is `None` exactly when the line is all whitespace; otherwise it is a non-empty, whitespace-free token with only whitespace before it and whitespace or the end after it |
| `Registry.Appended` | src/main.rs:53-55 | adding an event makes that name's history the old history (or empty) followed by the event; every other name's history is unchanged |
| `Registry.Inserted` | src/main.rs:61-66 | caching a URL makes the lookup of that (package, version) return it; every other (package, version) lookup is unchanged; package keys gain at most that package |
| `Registry.HistoryIsChronological` | src/main.rs:53-55 | after recording a series of events on an empty registry, each name's history is exactly that name's events in recording order, repeats kept |
| `Registry.PackageRegistry.constructor` | src/main.rs:26-31 | a new registry has no history and an empty cache |
| `Registry.PackageRegistry.AddPackage` | src/main.rs:53-55 | appends the event to its name's history, leaves other names' histories and the whole cache unchanged |
| `Registry.PackageRegistry.GetPackageHistory` | src/main.rs:57-59 | the history is present exactly when the name has been recorded, and is then the recorded sequence |
| `Registry.PackageRegistry.CacheVersion` | src/main.rs:61-66 | afterwards the cached URL for the pair is the new one; every other pair's cached URL and the whole history are unchanged |
| `Registry.PackageRegistry.GetCachedVersion` | src/main.rs:68-72 | present exactly when both levels of the cache hold the key, and then it is the stored URL |
| `Resolver.ScanFrom` | src/main.rs:439-468 | the channel loop stops at the first channel whose probe is fatal or whose reported version starts with the token; every probe before it was neither; or it runs off the end with no fatal probe and no match |
| `Resolver.ScanIsFirstDecisive` | src/main.rs:439-468 | if all channels before `k` are undecided, the loop stops at `k` when that probe is fatal or matches, and runs off the end when `k` is the last index plus one |
| `Resolver.Resolve` | src/main.rs:429-479 | at most three probes; a successful answer is in the cache afterwards under (package, version); a failed resolution leaves the cache unchanged |
| `Resolver.CacheHit` | src/main.rs:431-434 | a cached pair returns the cached URL with zero probes and an unchanged cache |
| `Resolver.FirstMatchWins` | src/main.rs:437-463 | on a miss, the first matching channel gives `<channel>#<package>`, preceded only by skipped probes; channels after it are not probed (probe count `k+1`); that URL is cached |
| `Resolver.NoMatchFallsBack` | src/main.rs:470-478 | on a miss with no fatal probe and no match, the result is `nixpkgs#<package>` after three probes, and it is cached |
| `Resolver.FatalProbeAborts` | src/main.rs:440-452 | a spawn failure or a non-UTF-8 output ends resolution with that error after `k+1` probes; nothing is cached |
| `Resolver.ResolveIdempotent` | src/main.rs:429-479 | after a successful resolution, resolving the same pair again returns the identical URL with zero probes and no cache change, whatever the channels report |
| `Resolver.ResolveOnlyAddsItsPair` | src/main.rs:458-476 | resolution never changes an existing cache entry, nor any entry other than the requested pair |
| `Resolver.PrefixSelectsFirstChannel` | src/main.rs:455-463 | with unstable reporting `14.1.0`, token `14.1` resolves to `nixpkgs/nixos-unstable#<package>` in one probe |
| `Resolver.ResolveSemanticVersion` | src/main.rs:429-479 | the in-place resolution returns `Resolve`'s URL and probe count, leaves the registry's cache as `Resolve` says, and leaves the history unchanged |
| `Resolver.Classify` | src/main.rs:411-422 | the branch a token takes, with the tests in source order and the hex test on the UTF-8 byte length: no token exactly when unpinned; the exactly-one-dot-and-all-digits branch never; a commit pin exactly for tokens of at least 7 hex characters; semantic exactly for tokens containing `.`; a channel name for every other token |
| `Resolver.FlakeUrl` | src/main.rs:407-427 | every token that is not semantic yields a URL with zero probes and an unchanged cache |
| `Resolver.NoTokenIsUnpinned` | src/main.rs:425 | no token gives `nixpkgs#<package>`, with no probe and no change to the registry |
| `Resolver.ChannelPinIsDead` | src/main.rs:411-413 | no token takes the "exactly one dot and all digits" branch |
| `Resolver.ChannelLikeTokenIsSemantic` | src/main.rs:411-419 | `23.11` is classified as semantic and goes to semantic resolution |
| `Resolver.DottedTokenIsSemantic` | src/main.rs:417-419 | every token containing `.` goes to semantic resolution |
| `Resolver.HexTokenIsCommit` | src/main.rs:414-416 | a token of at least 7 hex digits, either case, gives `github:NixOS/nixpkgs/<token>#<package>` with no probe and the cache unchanged |
| `Resolver.OtherTokenIsChannel` | src/main.rs:420-422 | any other dot-free token (the empty token and short hex included) gives `nixpkgs/<token>#<package>` with no probe and the cache unchanged |
| `Resolver.FlakeUrlIdempotent` | src/main.rs:407-427 | after a successful answer for a package and token, asking again returns the identical URL with zero probes and no cache change |
| `Resolver.BuildFlakeUrl` | src/main.rs:407-427 | the in-place version returns `FlakeUrl`'s URL and probe count and leaves the registry as it says |
| `Profile.NeedleLineHasToken` | src/main.rs:173-179 | a line containing `nixpkgs#<package>` always has a first token, so the rollback loop's `if let Some` never skips a matching line |
| `Profile.FindProfileIndex` | src/main.rs:323-329 | the result is `None` exactly when no line contains `nixpkgs#<package>`; otherwise it is the first token of the first line that does |
| `Profile.RollbackIndex` | src/main.rs:173-179 | the rollback search, which stops only at a matching line with a token, yields `None` exactly when no line contains `nixpkgs#<package>`, otherwise the first token of the first line that does: the same entry as the uninstall search |
| `Profile.PrefixNameMatches` | src/main.rs:325 | the match is a substring match: a line found for a package name is also found for every prefix of that name |
| `Profile.ShorterNameTakesEarlierEntry` | src/main.rs:323-329 | with `cowsay` listed before `cow`, the search for `cow` stops at `cowsay`'s line and takes its index `3` |
| `Profile.LeadingIndexToken` | src/main.rs:326 | a line that starts with one non-whitespace character followed by a space has that character as its first token |

These predicates and functions have no contract of their own. Each stands for a Rust operation, and the members above are stated in terms of them:
- `Strings.StartsWith` is `str::starts_with` (src/main.rs:455).
- `Strings.Contains` is `str::contains` with a string pattern (src/main.rs:174, 325).
- `Strings.Utf8Len` is `str::len`, the UTF-8 byte length (src/main.rs:414).
- `Strings.IsWhitespace` is `char::is_whitespace`, the Unicode White_Space property, which decides `split_whitespace` (src/main.rs:175, 326).

## Left out

- Registry persistence is not modelled: `PackageRegistry::load`, `save`, `get_registry_path` and the `serde_json` (de)serialisation (src/main.rs:33-51, 75-78). The registry is in-memory state. The source reloads the file before each write. With no other process writing, each reload returns the state last saved, so the model keeps one object. It leaves out the errors of a missing home directory, an unreadable or corrupt file and a failed write, and it leaves out two concurrent invocations losing an update.
- Process invocation is not modelled: `run_nix_command` and `Command::new("nix")`, with their exit status and stdio handling (src/main.rs:275-298). Each probe's effect is an oracle outcome.
- JSON parsing of the `nix eval` output (src/main.rs:453-454) is a foreign library. It is reduced to "a JSON string was reported, or not".
- `str::lines()` is not modelled. The profile search takes the output already split into lines.
- The surrounding command flows are not modelled: running the `nix profile remove`/`add` commands, the uninstall errors for a failed listing or a missing package (src/main.rs:316-318, 331-337), and `Pin`/`Rollback` building a `PackageInfo` and saving it (src/main.rs:373-395, 162-201). They only chain the modelled operations with I/O. The rollback search returns the index it would pass to `nix profile remove`; the removal itself, and the early error return when it fails (src/main.rs:176), are not modelled.
- `create_package_flake` (src/main.rs:80-119) is left out: template text, file writes and a `nix flake update` call.
- `show_package_history` (src/main.rs:121-160) is left out: printing, and a channel probe loop whose results are only printed.
- `handle_command`'s pass-through commands (`Search`, `List`, `Update`, `Upgrade`, `Versions`) and `main` are left out: argument formatting and printing.
- Timestamps are opaque strings. `chrono::Utc::now()` is a clock, so `PackageInfo.installDate` is whatever the caller supplies.
- clap argument parsing and the tokio runtime are left out. The model is sequential, which is how the source runs.

# Aftman home-directory core, modelled in Dafny

This project models three pieces of the home-directory runtime of Aftman, a
cross-platform toolchain manager, and proves properties of them:

- **Toolchain classifier** (`toolchain.dfy`, module `Toolchains`): `detect`
  lower-cases an identifier such as a target triple and reports the first of
  MSVC, GNU and MUSL whose keyword (`msvc`, `gnu`, `musl`) occurs in it;
  `current` reports no host toolchain.
- **Auth manifest** (`toml_table.dfy`, module `TomlTables`; `auth.dfy`,
  module `AuthManifests`): the `auth.toml` document is seen as its top-level
  table, an ordered sequence of entries with distinct keys whose values are
  strings or something else. Tokens are read, tested and set per artifact
  provider; `load_or_create` is a pure function of what the file helpers
  report, returning its result together with the file requests it issued.
- **Home coordinator** (`home.dfy`, module `Homes`): the root directory is a
  function of `AFTMAN_ROOT` and the user's home directory; loading needs all
  three sub-store loads to succeed; saving saves the trust and install caches
  and only then sets the shared save flag; clones and drops form a small state
  machine over (live handles, save flag, warnings emitted), in which dropping
  the last handle of an unsaved home warns.

`paths.dfy` (module `Paths`) keeps paths symbolic (`FromText(s)` or
`Join(base, name)`), and `results.dfy` (module `Results`) holds `Option`, the
error kinds `HomeNotFound`, `FileNotFound`, `Io`, `Parse`, a `Result` over
them and `Traced`, a result paired with the I/O requests that produced it.

File I/O, environment variables and the sub-store operations are parameters:
a `Reader`/`Writer` for the manifest file helpers, `Loaders`/`Savers` for the
sub-stores, and `Option` values for `AFTMAN_ROOT` and the home directory.

Design note: any set value of `AFTMAN_ROOT` is used verbatim as the root,
so an empty value gives an empty root, which the operating system reads
relative to the current directory; only an unset variable falls back to
`$HOME/.aftman` (`Homes.ResolveRoot`).

## Model

| member | source | states |
|---|---|---|
| Toolchains.Lower | lib/system/toolchain.rs:28 | the lower-cased identifier has the same length and each character is folded on its own, so folding twice changes nothing and folding distributes over concatenation (see the lemmas below) |
| Toolchains.LowerFolds | lib/system/toolchain.rs:28 | ASCII case folding: same length, 'A'..'Z' become the matching lower-case letter, no upper-case ASCII letter remains, and every other character is kept |
| Toolchains.LowerIdempotent | lib/system/toolchain.rs:28 | folding an already folded string changes nothing |
| Toolchains.LowerConcat | lib/system/toolchain.rs:28 | folding a concatenation folds each part separately |
| Toolchains.Contains | lib/system/toolchain.rs:30 | substring search answers true exactly when the keyword occurs at some position of the lowered text |
| Toolchains.ContainsAny | lib/system/toolchain.rs:29-33 | the loop over a keyword array succeeds exactly when one of its keywords occurs |
| Toolchains.MatchesSingleKeyword | lib/system/toolchain.rs:1-3 | each toolchain's keyword array holds one keyword, so matching a toolchain means containing that keyword |
| Toolchains.Current | lib/system/toolchain.rs:20-22 | the host toolchain is never detected: always none |
| Toolchains.Detect | lib/system/toolchain.rs:27-45 | MSVC iff the lowered text contains "msvc"; GNU iff it contains "gnu" but not "msvc"; MUSL iff "musl" but neither of the others; none iff no keyword occurs |
| Toolchains.DetectIsFirstMatch | lib/system/toolchain.rs:27-45 | the result is the earliest toolchain in declaration order that matches, and none exactly when no toolchain matches |
| Toolchains.DetectIgnoresCase | lib/system/toolchain.rs:28 | detecting on a string and on its lower-cased form give the same answer |
| Toolchains.MsvcStableUnderExtension | lib/system/toolchain.rs:29-33 | text classified MSVC stays MSVC with anything prepended or appended |
| Toolchains.GnuNotStableUnderExtension | lib/system/toolchain.rs:29-38 | "gnu" is GNU, but prefixing "msvc-" turns it into MSVC: precedence is by order, not position |
| Toolchains.DetectWindowsTriple | lib/system/toolchain.rs:29-33 | "x86_64-pc-windows-msvc" is MSVC |
| Toolchains.DetectLinuxTriple | lib/system/toolchain.rs:34-38 | "x86_64-unknown-linux-gnu" is GNU |
| Toolchains.DetectMuslTriple | lib/system/toolchain.rs:39-43 | "aarch64-unknown-linux-musl" is MUSL |
| Toolchains.DetectWasmTriple | lib/system/toolchain.rs:44 | "wasm32-unknown-unknown" has no toolchain |
| Toolchains.DetectMixedCase | lib/system/toolchain.rs:28-33 | "GNU-MSVC-hybrid" is MSVC: upper case is folded and MSVC beats GNU |
| TomlTables.Get | lib/manifests/auth.rs:83 | a lookup finds a value exactly when the key is in the table, and the value found is the one entry stored under that key |
| TomlTables.ContainsKey | lib/manifests/auth.rs:74 | a key is contained exactly when some entry bears it |
| TomlTables.Insert | lib/manifests/auth.rs:98-102 | insertion returns the previous value, makes the key map to the new item, leaves every other key's value alone, adds only that key, keeps keys distinct, and grows the table only for a new key |
| AuthManifests.HasToken | lib/manifests/auth.rs:73-75 | true exactly when the provider's key is a top-level key, whatever the type of its value |
| AuthManifests.GetToken | lib/manifests/auth.rs:82-85 | returns token t exactly when the entry `key = "t"` is present; none when the key is absent or its value is not a string |
| AuthManifests.SetToken | lib/manifests/auth.rs:93-104 | returns whether the key was present before; afterwards the token reads back, the key is present, all other keys keep their values and the key set grows by at most the provider's key |
| AuthManifests.SetTokenKeepsOtherProviders | lib/manifests/auth.rs:98-102 | setting one provider's token leaves another provider's token and presence unchanged |
| AuthManifests.SetTokenTwice | lib/manifests/auth.rs:93-104 | on any manifest, setting twice makes the second set report a previous token and read back the second token; on a fresh manifest the first set reports none |
| AuthManifests.DefaultHasNoTokens | lib/manifests/auth.rs:121-128 | the created default manifest has no token for any provider, GitHub included |
| AuthManifests.Load | lib/manifests/auth.rs:55-58 | loading reads exactly `dir/auth.toml` and returns the helper's outcome unchanged |
| AuthManifests.Save | lib/manifests/auth.rs:65-68 | saving writes the manifest to exactly `dir/auth.toml` and returns the helper's outcome unchanged |
| AuthManifests.LoadOrCreate | lib/manifests/auth.rs:37-48 | a loaded manifest is returned as is; a missing file yields the default manifest after writing it, with the write's error propagated; any other error is returned with no write attempted; every request addresses `dir/auth.toml` |
| AuthManifests.ManifestFileShared | lib/manifests/auth.rs:11 | load, save and load-or-create address the same file, `dir/auth.toml` |
| AuthManifests.LoadOrCreateColdStart | lib/manifests/auth.rs:41-45 | when every write succeeds, on a directory without the file the default manifest is returned and the file afterwards holds it |
| AuthManifests.LoadOrCreateIdempotent | lib/manifests/auth.rs:37-48 | when every write succeeds, a second call returns what the first did, issues only the read of `dir/auth.toml` and leaves the disk unchanged |
| Homes.TryJoin3 | lib/storage/home.rs:35-39 | the join succeeds with all three values iff all three succeed, and otherwise fails with the error of one that failed |
| Homes.TryJoin2 | lib/storage/home.rs:104-107 | the join succeeds with both values iff both succeed, and otherwise fails with the error of one that failed |
| Homes.LoadFromPath | lib/storage/home.rs:31-48 | every request issued is a sub-store load at the root, and all three are issued when the load succeeds; a home exists iff all loads succeed, and it then has that root, one handle, the flag unset, no warnings and the loaded sub-stores; otherwise a failed load's error |
| Homes.ResolveRoot | lib/storage/home.rs:60-67 | a set `AFTMAN_ROOT` (even empty) is the root verbatim; otherwise `.aftman` under the home directory; HomeNotFound exactly when both are missing |
| Homes.LoadFromEnv | lib/storage/home.rs:59-70 | with no override and no home directory the result is HomeNotFound and no sub-store is loaded; otherwise it is loading from the resolved root, and a loaded home is fresh at that root |
| Homes.Save | lib/storage/home.rs:103-110 | every request issued is a save at the root and none is for tool storage; both the trust and install caches are saved when it succeeds; the flag becomes set iff both saves succeed, the state is otherwise unchanged, and a failure carries a failed save's error |
| Homes.Clone | lib/storage/home.rs:18-21 | a clone adds one live handle and shares the home, the flag and the warnings |
| Homes.Drop | lib/storage/home.rs:122-131 | a drop removes one handle and adds one warning iff it was the last handle and the flag was unset; otherwise no warning |
| Homes.Step | lib/storage/home.rs:107-108 | a save event sets the flag exactly when the save succeeds and otherwise leaves the shared state unchanged |
| Homes.SaveFlagSticky | lib/storage/home.rs:108 | once the flag is set, no sequence of clones, drops or saves unsets it |
| Homes.NoSaveKeepsFlag | lib/storage/home.rs:103-110 | without a save the flag keeps its value |
| Homes.WarningsOnlyAtLastDrop | lib/storage/home.rs:124-125 | from a state with no warnings, no warning is emitted while a handle is still live |
| Homes.LastDropWarnsIffUnsaved | lib/storage/home.rs:122-131 | running until no handle is left adds exactly one warning if the flag ended unset and none if it ended set |
| Homes.UnsavedHomeWarnsOnce | lib/storage/home.rs:122-131 | a freshly loaded home that is never saved warns exactly once when all its handles are dropped |
| Homes.SavedHomeNeverWarns | lib/storage/home.rs:103-131 | after a successful save through any handle, dropping every handle emits no warning at all |
| Homes.CloneSharesSaveFlag | lib/storage/home.rs:18-21 | a save through a clone suppresses the warning for the original; without it, clone and two drops warn once |

## Left out

- TOML parsing and printing, and comment and whitespace preservation: the document is only its top-level key/value table, so byte-exact round trips are not stated.
- The position and trivia behaviour of table insertion beyond "replace in place, append when new".
- The default template's text and the repository URL compiled into it: the default manifest is an empty table, since the template holds only comments.
- The file helpers that read, parse and atomically write files: their outcomes are the `Reader` and `Writer` parameters.
- The enumeration of artifact providers, defined outside this model: a provider is its string key, and `GitHub` is the one named here.
- The sub-stores' contents and operations: `TrustCache`, `InstallCache` and `ToolStorage` are stand-ins, and their loads and saves are the `Loaders` and `Savers` parameters.
- Concurrency: the joins of the concurrent loads and saves are modelled as "all succeed, else an error of one that failed"; which error wins when several fail depends on timing in the code, and the contracts only say it is one of them.
- Atomic memory ordering: the shared save flag is one variable and the handle count is an integer, assuming sub-stores keep no extra reference to the root path.
- The error log line on an unsaved drop is counted as a warning; its text is not modelled.
- The environment and OS queries become inputs; an `AFTMAN_ROOT` value that is not valid Unicode reads as unset, which the caller expresses by passing `None`.
- Toolchains.Lower: folds ASCII letters only, not full Unicode lower-casing as the code does; `Toolchains.LowerFolds` states exactly that ASCII rule.
- AuthManifests.LoadOrCreateColdStart: holds on an in-memory disk where every write succeeds and a written manifest reads back as the same table; that parse-after-print round trip of the TOML library is assumed, not modelled. The lemma only writes the default manifest, whose comment-only template reads back as an empty table.
- AuthManifests.LoadOrCreateIdempotent: holds on the same in-memory disk, with every write succeeding and a written manifest read back unchanged, as assumed above.
- Toolchains.Detect: case folding is ASCII only, not full Unicode lower-casing. For the keywords here the answers agree, since no non-ASCII character lower-cases to any of the letters in `msvc`, `gnu` or `musl`, but that is argued here, not proved.
- Accessors `path`, `trust_cache`, `install_cache` and `tool_storage` are field reads of `Home` and carry no separate member; `path` is the field `home.path`, which `Fresh` fixes to the root a home was loaded from.
- Homes.Drop: drops are taken one at a time. In the code the last-handle test reads the shared count before the dropped handle releases it, so two handles dropped at the same moment on two threads can both see two live handles and neither warns; there an unsaved home warns at most once, not exactly once as `Homes.UnsavedHomeWarnsOnce` states for serialised drops.
- Homes.LoadFromPath: the joins are modelled as issuing requests in order and stopping at the first failure. In the code the requests run concurrently and a first failure cancels the others at whatever point they reached, so the contracts of `Homes.LoadFromPath` and `Homes.Save` name the exact requests only on success and otherwise only that every request addresses the root (and, for saving, never tool storage).

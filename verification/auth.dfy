/** The authentication manifest `auth.toml`: a typed view over the top-level
    table of a TOML document, mapping each artifact provider's key to a
    token string, plus the rules for loading, creating and saving it. */
module AuthManifests {
  import opened Paths
  import opened Results
  import opened TomlTables

  // ---------------------------------------------------------------------
  // Providers and the manifest value

  /** An artifact provider, known here only by its stable string key; the
      enumeration of providers is defined outside this model. */
  datatype ArtifactProvider = Provider(key: string)

  const GitHub: ArtifactProvider := Provider("github")

  function AsStr(p: ArtifactProvider): string {
    p.key
  }

  /** Distinct providers have distinct keys, so they never share a token. */
  lemma AsStrInjective(p: ArtifactProvider, q: ArtifactProvider)
    ensures AsStr(p) == AsStr(q) ==> p == q
  {
  }

  datatype AuthManifest = AuthManifest(document: Table)

  /** The manifest created when none exists. Its template holds only
      comments, so its top-level table has no entries. */
  const Default: AuthManifest := AuthManifest([])

  // ---------------------------------------------------------------------
  // Tokens

  /** A token is recorded for `p`, whatever the type of its value. */
  function HasToken(m: AuthManifest, p: ArtifactProvider): (b: bool)
    ensures b <==> AsStr(p) in Keys(m.document)
    ensures b <==> exists item :: HasEntry(m.document, AsStr(p), item)
  {
    ContainsKey(m.document, AsStr(p))
  }

  /** The token for `p`, if its entry exists and holds a string; an entry
      of any other type reads as no token. */
  function GetToken(m: AuthManifest, p: ArtifactProvider): (r: Option<string>)
    ensures forall token :: r == Some(token) <==> HasEntry(m.document, AsStr(p), Str(token))
    ensures r.None? <==> !HasToken(m, p) || HasEntry(m.document, AsStr(p), Other)
  {
    match Get(m.document, AsStr(p))
    case Some(Str(token)) => Some(token)
    case _ => None
  }

  /** Stores `token` as the string value of `p`'s entry, replacing any
      previous value, and reports whether an entry was already present. */
  function SetToken(m: AuthManifest, p: ArtifactProvider, token: string): (r: (AuthManifest, bool))
    ensures r.1 == HasToken(m, p)
    ensures GetToken(r.0, p) == Some(token)
    ensures HasToken(r.0, p)
    ensures forall key :: key != AsStr(p) ==> Get(r.0.document, key) == Get(m.document, key)
    ensures Keys(r.0.document) == Keys(m.document) + {AsStr(p)}
  {
    var (document, previous) := Insert(m.document, AsStr(p), Str(token));
    (AuthManifest(document), previous.Some?)
  }

  /** Setting a token leaves every other provider's token as it was. */
  lemma SetTokenKeepsOtherProviders(m: AuthManifest, p: ArtifactProvider, q: ArtifactProvider, token: string)
    requires p != q
    ensures GetToken(SetToken(m, p, token).0, q) == GetToken(m, q)
    ensures HasToken(SetToken(m, p, token).0, q) == HasToken(m, q)
  {
    AsStrInjective(p, q);
  }

  /** Setting twice on any manifest: the second call reports a previous
      token and the last token wins; on a fresh manifest the first call
      reports none. */
  lemma SetTokenTwice(m: AuthManifest, p: ArtifactProvider, first: string, second: string)
    ensures SetToken(SetToken(m, p, first).0, p, second).1
    ensures GetToken(SetToken(SetToken(m, p, first).0, p, second).0, p) == Some(second)
    ensures !SetToken(Default, p, first).1
    ensures SetToken(SetToken(Default, p, first).0, p, second).1
    ensures GetToken(SetToken(SetToken(Default, p, first).0, p, second).0, p) == Some(second)
  {
  }

  /** A freshly created manifest holds no token for any provider, GitHub included. */
  lemma DefaultHasNoTokens(p: ArtifactProvider)
    ensures !HasToken(Default, p)
    ensures GetToken(Default, p).None?
    ensures !HasToken(Default, GitHub)
  {
  }

  // ---------------------------------------------------------------------
  // Loading and saving

  const ManifestFileName: string := "auth.toml"

  function ManifestPath(dir: Path): Path {
    Join(dir, ManifestFileName)
  }

  /** A request made to the file helpers. */
  datatype FileOp =
    | ReadFile(path: Path)
    | WriteFile(path: Path, manifest: AuthManifest)
  {
    function Target(): Path {
      match this
      case ReadFile(path) => path
      case WriteFile(path, _) => path
    }
  }

  /** Outcome of reading and parsing a manifest file; the helper reports a
      missing file as `FileNotFound`, anything else as `Io` or `Parse`. */
  type Reader = Path -> Result<AuthManifest>

  /** Outcome of serialising and writing a manifest file. */
  type Writer = (Path, AuthManifest) -> Result<()>

  function Load(dir: Path, read: Reader): (r: Traced<AuthManifest, FileOp>)
    ensures r.ops == [ReadFile(Join(dir, "auth.toml"))]
    ensures r.result == read(Join(dir, "auth.toml"))
  {
    Traced(read(ManifestPath(dir)), [ReadFile(ManifestPath(dir))])
  }

  function Save(m: AuthManifest, dir: Path, write: Writer): (r: Traced<(), FileOp>)
    ensures r.ops == [WriteFile(Join(dir, "auth.toml"), m)]
    ensures r.result == write(Join(dir, "auth.toml"), m)
  {
    Traced(write(ManifestPath(dir), m), [WriteFile(ManifestPath(dir), m)])
  }

  /** Loads the manifest; if the file does not exist, saves and returns the
      default manifest instead. Every other error is returned unchanged. */
  function LoadOrCreate(dir: Path, read: Reader, write: Writer): (r: Traced<AuthManifest, FileOp>)
    ensures |r.ops| >= 1 && r.ops[0] == ReadFile(Join(dir, "auth.toml"))
    ensures forall i :: 0 <= i < |r.ops| ==> r.ops[i].Target() == Join(dir, "auth.toml")
    ensures read(Join(dir, "auth.toml")).Ok? ==> r.result == read(Join(dir, "auth.toml")) && |r.ops| == 1
    ensures read(Join(dir, "auth.toml")).Err? && read(Join(dir, "auth.toml")).error.FileNotFound? ==>
      && r.ops == [ReadFile(Join(dir, "auth.toml")), WriteFile(Join(dir, "auth.toml"), Default)]
      && (r.result.Ok? <==> write(Join(dir, "auth.toml"), Default).Ok?)
      && (r.result.Ok? ==> r.result.value == Default)
      && (r.result.Err? ==> r.result.error == write(Join(dir, "auth.toml"), Default).error)
    ensures read(Join(dir, "auth.toml")).Err? && !read(Join(dir, "auth.toml")).error.FileNotFound? ==>
      r.result == read(Join(dir, "auth.toml")) && |r.ops| == 1
  {
    var loaded := Load(dir, read);
    match loaded.result
    case Ok(manifest) => loaded
    case Err(FileNotFound(_)) =>
      var saved := Save(Default, dir, write);
      var ops := loaded.ops + saved.ops;
      if saved.result.Ok? then Traced(Ok(Default), ops) else Traced(Err(saved.result.error), ops)
    case Err(e) => Traced(Err(e), loaded.ops)
  }

  /** Loading, saving and loading-or-creating all address `dir/auth.toml`. */
  lemma ManifestFileShared(dir: Path, read: Reader, write: Writer, m: AuthManifest)
    ensures Load(dir, read).ops[0].Target() == Save(m, dir, write).ops[0].Target()
    ensures forall op :: op in LoadOrCreate(dir, read, write).ops ==> op.Target() == Load(dir, read).ops[0].Target()
    ensures Load(dir, read).ops[0].Target() == Join(dir, "auth.toml")
  {
  }

  // ---------------------------------------------------------------------
  // Repeated calls against one directory

  /** What a file helper finds at a path of an in-memory file system. */
  datatype StoredFile =
    | Parsed(manifest: AuthManifest)
    | Unparsable(cause: string)
    | Unreadable(cause: string)

  type Disk = map<Path, StoredFile>

  function ReadFrom(disk: Disk): Reader {
    p =>
      if p !in disk then Err(FileNotFound(p))
      else match disk[p]
        case Parsed(m) => Ok(m)
        case Unparsable(cause) => Err(Parse(p, cause))
        case Unreadable(cause) => Err(Io(p, cause))
  }

  function WriteSucceeds(): Writer {
    (p, m) => Ok(())
  }

  /** The file system after the given requests; reads change nothing. */
  function Apply(disk: Disk, ops: seq<FileOp>): Disk
    decreases |ops|
  {
    if |ops| == 0 then disk
    else
      var next := match ops[0]
        case ReadFile(_) => disk
        case WriteFile(p, m) => disk[p := Parsed(m)];
      Apply(next, ops[1..])
  }

  /** On a directory without a manifest, the default manifest is returned
      and is what the file then holds. */
  lemma LoadOrCreateColdStart(disk: Disk, dir: Path)
    requires Join(dir, "auth.toml") !in disk
    ensures LoadOrCreate(dir, ReadFrom(disk), WriteSucceeds()).result == Ok(Default)
    ensures var after := Apply(disk, LoadOrCreate(dir, ReadFrom(disk), WriteSucceeds()).ops);
      Join(dir, "auth.toml") in after && after[Join(dir, "auth.toml")] == Parsed(Default)
  {
    var path := ManifestPath(dir);
    var r := LoadOrCreate(dir, ReadFrom(disk), WriteSucceeds());
    assert r.ops == [ReadFile(path), WriteFile(path, Default)];
    assert Apply(disk, r.ops) == Apply(disk, r.ops[1..]);
    assert Apply(disk, r.ops[1..]) == Apply(disk[path := Parsed(Default)], []);
  }

  /** A second call returns what the first returned and writes nothing. */
  lemma LoadOrCreateIdempotent(disk: Disk, dir: Path)
    ensures var first := LoadOrCreate(dir, ReadFrom(disk), WriteSucceeds());
      var after := Apply(disk, first.ops);
      var second := LoadOrCreate(dir, ReadFrom(after), WriteSucceeds());
      && second.result == first.result
      && second.ops == [ReadFile(Join(dir, "auth.toml"))]
      && Apply(after, second.ops) == after
  {
    var path := ManifestPath(dir);
    var first := LoadOrCreate(dir, ReadFrom(disk), WriteSucceeds());
    var after := Apply(disk, first.ops);
    if path in disk {
      assert first.ops == [ReadFile(path)];
      assert after == Apply(disk, []);
    } else {
      LoadOrCreateColdStart(disk, dir);
    }
    var second := LoadOrCreate(dir, ReadFrom(after), WriteSucceeds());
    assert second.ops == [ReadFile(path)];
    assert Apply(after, second.ops) == Apply(after, []);
  }
}

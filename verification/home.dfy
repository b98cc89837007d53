/** The home-directory coordinator: resolution of the root directory,
    loading of the three sub-stores under it, saving, and the lifecycle of
    the shared handles with its warning on an unsaved last drop. */
module Homes {
  import opened Paths
  import opened Results

  // ---------------------------------------------------------------------
  // Sub-stores

  /** Stand-ins for the three sub-stores; their contents are not part of this model. */
  datatype TrustCache = TrustCache(contents: seq<string>)
  datatype InstallCache = InstallCache(contents: seq<string>)
  datatype ToolStorage = ToolStorage(contents: seq<string>)

  datatype StoreKind = Trust | Install | Tools

  /** A request made to a sub-store. */
  datatype StoreOp =
    | LoadStore(kind: StoreKind, path: Path)
    | SaveStore(kind: StoreKind, path: Path)

  /** What each sub-store's load reports for a root directory. */
  datatype Loaders = Loaders(
    trust: Path -> Result<TrustCache>,
    install: Path -> Result<InstallCache>,
    tools: Path -> Result<ToolStorage>)

  /** What each sub-store's save reports for its contents and a root directory. */
  datatype Savers = Savers(
    trust: (TrustCache, Path) -> Result<()>,
    install: (InstallCache, Path) -> Result<()>)

  /** Joins three concurrent operations: all values if all succeed,
      otherwise the error of one that failed. */
  function TryJoin3<A, B, C>(a: Result<A>, b: Result<B>, c: Result<C>): (r: Result<(A, B, C)>)
    ensures r.Ok? <==> a.Ok? && b.Ok? && c.Ok?
    ensures r.Ok? ==> r.value == (a.value, b.value, c.value)
    ensures r.Err? ==>
      (a.Err? && r.error == a.error) || (b.Err? && r.error == b.error) || (c.Err? && r.error == c.error)
  {
    if a.Err? then Err(a.error)
    else if b.Err? then Err(b.error)
    else if c.Err? then Err(c.error)
    else Ok((a.value, b.value, c.value))
  }

  /** The two-operation join. */
  function TryJoin2<A, B>(a: Result<A>, b: Result<B>): (r: Result<(A, B)>)
    ensures r.Ok? <==> a.Ok? && b.Ok?
    ensures r.Ok? ==> r.value == (a.value, b.value)
    ensures r.Err? ==> (a.Err? && r.error == a.error) || (b.Err? && r.error == b.error)
  {
    if a.Err? then Err(a.error)
    else if b.Err? then Err(b.error)
    else Ok((a.value, b.value))
  }

  // ---------------------------------------------------------------------
  // The coordinator

  /** What every clone of one home holds: the root and the loaded sub-stores. */
  datatype Home = Home(
    path: Path,
    trustCache: TrustCache,
    installCache: InstallCache,
    toolStorage: ToolStorage)

  /** One home together with the state its clones share: the number of live
      handles, the save flag, and the number of warnings emitted so far. */
  datatype Shared = Shared(home: Home, handles: nat, didSave: bool, warnings: nat)

  ghost predicate Fresh(s: Shared, root: Path) {
    s.home.path == root && s.handles == 1 && !s.didSave && s.warnings == 0
  }

  /** Loads the three sub-stores under `root`; a home exists only if all
      three loads succeed. */
  function LoadFromPath(root: Path, loaders: Loaders): (r: Traced<Shared, StoreOp>)
    ensures 1 <= |r.ops| <= 3
    ensures forall op :: op in r.ops ==> op.LoadStore? && op.path == root
    ensures r.result.Ok? ==>
      r.ops == [LoadStore(Trust, root), LoadStore(Install, root), LoadStore(Tools, root)]
    ensures r.result.Ok? <==>
      loaders.trust(root).Ok? && loaders.install(root).Ok? && loaders.tools(root).Ok?
    ensures r.result.Ok? ==>
      && Fresh(r.result.value, root)
      && r.result.value.home.trustCache == loaders.trust(root).value
      && r.result.value.home.installCache == loaders.install(root).value
      && r.result.value.home.toolStorage == loaders.tools(root).value
    ensures r.result.Err? ==>
      || (loaders.trust(root).Err? && r.result.error == loaders.trust(root).error)
      || (loaders.install(root).Err? && r.result.error == loaders.install(root).error)
      || (loaders.tools(root).Err? && r.result.error == loaders.tools(root).error)
  {
    // Loads are issued in turn and the first failure ends the join.
    var ops :=
      if loaders.trust(root).Err? then [LoadStore(Trust, root)]
      else if loaders.install(root).Err? then [LoadStore(Trust, root), LoadStore(Install, root)]
      else [LoadStore(Trust, root), LoadStore(Install, root), LoadStore(Tools, root)];
    match TryJoin3(loaders.trust(root), loaders.install(root), loaders.tools(root))
    case Ok((trust, install, tools)) =>
      Traced(Ok(Shared(Home(root, trust, install, tools), 1, false, 0)), ops)
    case Err(e) => Traced(Err(e), ops)
  }

  const HomeDirName: string := ".aftman"

  /** The root directory: the value of `AFTMAN_ROOT` when it is set, even
      to the empty string, else `.aftman` under the user's home directory. */
  function ResolveRoot(aftmanRoot: Option<string>, homeDir: Option<Path>): (r: Result<Path>)
    ensures aftmanRoot.Some? ==> r == Ok(FromText(aftmanRoot.value))
    ensures aftmanRoot.None? && homeDir.Some? ==> r == Ok(Join(homeDir.value, ".aftman"))
    ensures r == Err(HomeNotFound) <==> aftmanRoot.None? && homeDir.None?
  {
    match aftmanRoot
    case Some(text) => Ok(FromText(text))
    case None =>
      match homeDir
      case Some(home) => Ok(Join(home, HomeDirName))
      case None => Err(HomeNotFound)
  }

  /** Resolves the root from the environment, then loads the home there. */
  function LoadFromEnv(aftmanRoot: Option<string>, homeDir: Option<Path>, loaders: Loaders): (r: Traced<Shared, StoreOp>)
    ensures aftmanRoot.None? && homeDir.None? ==> r.result == Err(HomeNotFound) && r.ops == []
    ensures r.result.Ok? ==> Fresh(r.result.value, ResolveRoot(aftmanRoot, homeDir).value)
    ensures ResolveRoot(aftmanRoot, homeDir).Ok? ==>
      r == LoadFromPath(ResolveRoot(aftmanRoot, homeDir).value, loaders)
  {
    match ResolveRoot(aftmanRoot, homeDir)
    case Ok(root) => LoadFromPath(root, loaders)
    case Err(e) => Traced(Err(e), [])
  }

  /** Saves the trust cache and the install cache (never the tool storage);
      the shared flag is set only if both saves succeed. */
  function Save(s: Shared, savers: Savers): (r: Traced<Shared, StoreOp>)
    requires s.handles >= 1
    ensures 1 <= |r.ops| <= 2
    ensures forall op :: op in r.ops ==> op.SaveStore? && op.path == s.home.path && op.kind != Tools
    ensures r.result.Ok? ==> r.ops == [SaveStore(Trust, s.home.path), SaveStore(Install, s.home.path)]
    ensures r.result.Ok? <==>
      savers.trust(s.home.trustCache, s.home.path).Ok? && savers.install(s.home.installCache, s.home.path).Ok?
    ensures r.result.Ok? ==> r.result.value == s.(didSave := true)
    ensures r.result.Err? ==>
      || (savers.trust(s.home.trustCache, s.home.path).Err? &&
          r.result.error == savers.trust(s.home.trustCache, s.home.path).error)
      || (savers.install(s.home.installCache, s.home.path).Err? &&
          r.result.error == savers.install(s.home.installCache, s.home.path).error)
  {
    // Saves are issued in turn and the first failure ends the join.
    var ops :=
      if savers.trust(s.home.trustCache, s.home.path).Err? then [SaveStore(Trust, s.home.path)]
      else [SaveStore(Trust, s.home.path), SaveStore(Install, s.home.path)];
    match TryJoin2(savers.trust(s.home.trustCache, s.home.path), savers.install(s.home.installCache, s.home.path))
    case Ok(_) => Traced(Ok(s.(didSave := true)), ops)
    case Err(e) => Traced(Err(e), ops)
  }

  /** Another handle to the same home; all clones share the flag. */
  function Clone(s: Shared): (r: Shared)
    requires s.handles >= 1
    ensures r.handles == s.handles + 1
    ensures r.home == s.home && r.didSave == s.didSave && r.warnings == s.warnings
  {
    s.(handles := s.handles + 1)
  }

  /** Releases one handle; warns iff it was the last one and no save succeeded. */
  function Drop(s: Shared): (r: Shared)
    requires s.handles >= 1
    ensures r.handles == s.handles - 1
    ensures r.home == s.home && r.didSave == s.didSave
    ensures r.warnings == s.warnings + 1 <==> s.handles == 1 && !s.didSave
    ensures r.warnings == s.warnings <==> s.handles > 1 || s.didSave
  {
    var isLast := s.handles <= 1;
    if isLast && !s.didSave then s.(handles := s.handles - 1, warnings := s.warnings + 1)
    else s.(handles := s.handles - 1)
  }

  // ---------------------------------------------------------------------
  // Lifecycle

  /** Something done through one live handle. */
  datatype Event = CloneHandle | DropHandle | SaveHome(savers: Savers)

  /** One event; a failed save leaves the shared state as it was. */
  function Step(s: Shared, e: Event): (r: Shared)
    requires s.handles >= 1
    ensures e.SaveHome? ==> r.didSave == (s.didSave || Save(s, e.savers).result.Ok?)
    ensures e.SaveHome? ==> r == (if Save(s, e.savers).result.Ok? then s.(didSave := true) else s)
    ensures r.home == s.home
  {
    match e
    case CloneHandle => Clone(s)
    case DropHandle => Drop(s)
    case SaveHome(savers) =>
      var saved := Save(s, savers);
      if saved.result.Ok? then saved.result.value else s
  }

  /** The shared state after the events, or None if an event needs a live
      handle after the last one was dropped. */
  function Run(s: Shared, events: seq<Event>): Option<Shared>
    decreases |events|
  {
    if |events| == 0 then Some(s)
    else if s.handles == 0 then None
    else Run(Step(s, events[0]), events[1..])
  }

  /** None of the events is a save. */
  predicate NoSave(events: seq<Event>) {
    forall i :: 0 <= i < |events| ==> !events[i].SaveHome?
  }

  /** Once set, the save flag stays set. */
  lemma {:induction false} SaveFlagSticky(s: Shared, events: seq<Event>)
    requires s.didSave
    requires Run(s, events).Some?
    ensures Run(s, events).value.didSave
    decreases |events|
  {
    if |events| > 0 && s.handles > 0 {
      SaveFlagSticky(Step(s, events[0]), events[1..]);
    }
  }

  /** Without a save the flag keeps its value. */
  lemma {:induction false} NoSaveKeepsFlag(s: Shared, events: seq<Event>)
    requires NoSave(events)
    requires Run(s, events).Some?
    ensures Run(s, events).value.didSave == s.didSave
    decreases |events|
  {
    if |events| > 0 && s.handles > 0 {
      assert !events[0].SaveHome?;
      NoSaveKeepsFlag(Step(s, events[0]), events[1..]);
    }
  }

  /** Running until every handle is gone emits exactly one more warning if
      the flag ended unset, and none if it ended set. */
  lemma {:induction false} LastDropWarnsIffUnsaved(s: Shared, events: seq<Event>)
    requires s.handles >= 1
    requires Run(s, events).Some? && Run(s, events).value.handles == 0
    ensures Run(s, events).value.warnings ==
      s.warnings + (if Run(s, events).value.didSave then 0 else 1)
    decreases |events|
  {
    var next := Step(s, events[0]);
    if next.handles == 0 {
      assert events[0].DropHandle?;
      if |events| > 1 {
        assert false;
      }
      assert Run(s, events) == Some(next);
    } else {
      assert next.warnings == s.warnings;
      LastDropWarnsIffUnsaved(next, events[1..]);
    }
  }

  /** A home that is never saved warns exactly once once all its handles are dropped. */
  lemma UnsavedHomeWarnsOnce(s: Shared, root: Path, events: seq<Event>)
    requires Fresh(s, root)
    requires NoSave(events)
    requires Run(s, events).Some? && Run(s, events).value.handles == 0
    ensures Run(s, events).value.warnings == 1
  {
    NoSaveKeepsFlag(s, events);
    LastDropWarnsIffUnsaved(s, events);
  }

  /** After a successful save through any handle, dropping every handle
      never warns. */
  lemma SavedHomeNeverWarns(s: Shared, root: Path, before: seq<Event>, savers: Savers, after: seq<Event>)
    requires Fresh(s, root)
    requires Run(s, before).Some? && Run(s, before).value.handles >= 1
    requires Save(Run(s, before).value, savers).result.Ok?
    requires Run(s, before + [SaveHome(savers)] + after).Some?
    requires Run(s, before + [SaveHome(savers)] + after).value.handles == 0
    ensures Run(s, before + [SaveHome(savers)] + after).value.warnings == 0
  {
    var mid := Run(s, before).value;
    RunConcat(s, before, [SaveHome(savers)] + after);
    assert before + [SaveHome(savers)] + after == before + ([SaveHome(savers)] + after);
    var saved := Step(mid, SaveHome(savers));
    assert saved.didSave;
    assert Run(mid, [SaveHome(savers)] + after) == Run(saved, after);
    SaveFlagSticky(saved, after);
    WarningsOnlyAtLastDrop(s, before);
    LastDropWarnsIffUnsaved(mid, [SaveHome(savers)] + after);
  }

  /** Running a concatenation runs the parts in turn. */
  lemma {:induction false} RunConcat(s: Shared, first: seq<Event>, second: seq<Event>)
    requires Run(s, first).Some?
    ensures Run(s, first + second) == Run(Run(s, first).value, second)
    decreases |first|
  {
    if |first| == 0 {
      assert first + second == second;
    } else if s.handles == 0 {
      assert false;
    } else {
      assert (first + second)[1..] == first[1..] + second;
      RunConcat(Step(s, first[0]), first[1..], second);
    }
  }

  /** While a handle is live, no warning has been emitted. */
  lemma {:induction false} WarningsOnlyAtLastDrop(s: Shared, events: seq<Event>)
    requires s.handles >= 1 && s.warnings == 0
    requires Run(s, events).Some? && Run(s, events).value.handles >= 1
    ensures Run(s, events).value.warnings == 0
    decreases |events|
  {
    if |events| > 0 {
      var next := Step(s, events[0]);
      if next.handles == 0 {
        assert false;
      }
      WarningsOnlyAtLastDrop(next, events[1..]);
    }
  }

  /** A save through a clone is seen by the original handle: after clone,
      save, and two drops, nothing is warned; without the save, one warning. */
  lemma CloneSharesSaveFlag(s: Shared, root: Path, savers: Savers)
    requires Fresh(s, root)
    requires Save(Clone(s), savers).result.Ok?
    ensures Run(s, [CloneHandle, SaveHome(savers), DropHandle, DropHandle]) ==
      Some(s.(didSave := true, handles := 0))
    ensures Run(s, [CloneHandle, DropHandle, DropHandle]) == Some(s.(handles := 0, warnings := 1))
  {
    var events := [CloneHandle, SaveHome(savers), DropHandle, DropHandle];
    var c := Clone(s);
    var saved := c.(didSave := true);
    assert Run(s, events) == Run(c, events[1..]);
    assert Run(c, events[1..]) == Run(saved, events[2..]);
    assert Run(saved, events[2..]) == Run(Drop(saved), events[3..]);
    assert Run(Drop(saved), events[3..]) == Run(Drop(Drop(saved)), []);
    var unsaved := [CloneHandle, DropHandle, DropHandle];
    assert Run(s, unsaved) == Run(c, unsaved[1..]);
    assert Run(c, unsaved[1..]) == Run(Drop(c), unsaved[2..]);
    assert Run(Drop(c), unsaved[2..]) == Run(Drop(Drop(c)), []);
  }
}

/**
 The two kinds of build as the builder runs them, and the theorem that they agree: copying the last tree forward and
 emitting the changed sources gives the full build.
 */
module IncrementalBuild {
  import opened Wrappers
  import opened SourcePaths
  import opened ImportSpecifiers
  import opened ConsumerBuild

  // ---------------------------------------------------------------- emitting

  method EmitSourceFile(pr: Project, fs: FileSystem, tree: Tree, p: Path) returns (written: Tree)
    requires p in fs.files && IsUnder(pr.root, p)
    ensures written == WriteUnit(pr, fs, tree, p)
    ensures Key(pr, p) in written &&
      if CopiedAsIs(pr, p) then written[Key(pr, p)] == Asset(fs.files[p])
      else written[Key(pr, p)].Module? && KeepsCode(written[Key(pr, p)].tokens, pr.transpile(p, fs.files[p]))
  {
    WriteUnitEffect(pr, fs, tree, p);
    if CopiedAsIs(pr, p) {
      return tree[Key(pr, p) := Asset(fs.files[p])];
    }
    var tokens := RewriteRelativeImportSpecifiers(Init(p), pr.transpile(p, fs.files[p]), fs.Paths());
    written := tree[Key(pr, p) := Module(tokens)];
    if pr.sourceMaps {
      written := written[MapKey(Key(pr, p)) := SourceMap(pr.sourceMap(p, fs.files[p]))];
    }
  }

  method RewriteRelativeImportSpecifiers(dir: Path, tokens: seq<Token>, paths: set<Path>)
    returns (rewritten: seq<Token>)
    ensures rewritten == RewriteTokens(dir, tokens, paths)
    ensures KeepsCode(rewritten, tokens)
  {
    rewritten := [];
    for i := 0 to |tokens|
      invariant |rewritten| == i
      invariant forall k :: 0 <= k < i ==> rewritten[k] == RewriteTokens(dir, tokens, paths)[k]
    {
      if tokens[i].Import? {
        var s := ResolveRelativeRuntimeSpecifier(dir, tokens[i].specifier, paths);
        rewritten := rewritten + [Import(s)];
      } else {
        rewritten := rewritten + [tokens[i]];
      }
    }
  }

  method EmitOutputFiles(pr: Project, fs: FileSystem, start: Tree, ps: seq<Path>) returns (tree: Tree)
    requires forall p :: p in ps ==> p in fs.files && IsUnder(pr.root, p)
    ensures tree == WriteUnits(pr, fs, start, ps)
  {
    tree := start;
    for i := 0 to |ps|
      invariant tree == WriteUnits(pr, fs, start, ps[..i])
    {
      assert ps[..i + 1][..i] == ps[..i];
      tree := EmitSourceFile(pr, fs, tree, ps[i]);
    }
    assert ps[..|ps|] == ps;
  }

  lemma WriteUnitEffect(pr: Project, fs: FileSystem, tree: Tree, p: Path)
    requires p in fs.files && IsUnder(pr.root, p)
    ensures ENTRY !in KeysOf(pr, p)
    ensures WriteUnit(pr, fs, tree, p).Keys == tree.Keys + KeysOf(pr, p)
    ensures forall k :: k in tree && k !in KeysOf(pr, p) ==> WriteUnit(pr, fs, tree, p)[k] == tree[k]
    ensures Fresh(pr, fs, WriteUnit(pr, fs, tree, p), p)
  {
    assert Key(pr, p) != MapKey(Key(pr, p)) by {
      assert |Last(Key(pr, p))| < |Last(MapKey(Key(pr, p)))|;
    }
  }

  lemma OtherUnitStaysFresh(pr: Project, fs: FileSystem, tree: Tree, units: set<Path>, p: Path, q: Path)
    requires AreUnits(pr, fs, units) && p in units && q in units && p != q && q !in SharedUnits(pr, units)
    requires Fresh(pr, fs, tree, q)
    ensures Fresh(pr, fs, WriteUnit(pr, fs, tree, p), q)
  {
    KeysApart(pr, p, q);
    WriteUnitEffect(pr, fs, tree, p);
    assert Key(pr, q) in KeysOf(pr, q);
  }

  lemma KeysAfterWrite(pr: Project, fs: FileSystem, tree: Tree, units: set<Path>, grown: set<Path>, p: Path)
    requires AreUnits(pr, fs, units) && AreUnits(pr, fs, grown) && grown == units + {p}
    requires p in fs.files && IsUnder(pr.root, p)
    requires tree.Keys - {ENTRY} == AllKeys(pr, units)
    ensures WriteUnit(pr, fs, tree, p).Keys - {ENTRY} == AllKeys(pr, grown)
  {
    WriteUnitEffect(pr, fs, tree, p);
    assert AllKeys(pr, grown) == AllKeys(pr, units) + KeysOf(pr, p);
  }

  /** Emitting one unit brings it up to date and touches no other unit, except for units that share its file. */
  lemma WriteUnitBuilds(
    pr: Project, fs: FileSystem, tree: Tree, units: set<Path>, dirty: set<Path>, p: Path,
    all: set<Path>, grown: set<Path>, rest: set<Path>)
    requires AreUnits(pr, fs, all) && units <= grown <= all && p in all
    requires AreUnits(pr, fs, units) && AreUnits(pr, fs, grown) && grown == units + {p}
    requires rest == dirty - {p} + SharedUnits(pr, all)
    requires UnitsBuilt(pr, fs, tree, units, dirty)
    ensures UnitsBuilt(pr, fs, WriteUnit(pr, fs, tree, p), grown, rest)
    ensures ENTRY in tree ==>
      ENTRY in WriteUnit(pr, fs, tree, p) && WriteUnit(pr, fs, tree, p)[ENTRY] == tree[ENTRY]
  {
    KeysAfterWrite(pr, fs, tree, units, grown, p);
    WriteUnitEffect(pr, fs, tree, p);
    forall q | q in grown && q !in rest ensures Fresh(pr, fs, WriteUnit(pr, fs, tree, p), q) {
      if q != p {
        OtherUnitStaysFresh(pr, fs, tree, all, p, q);
      }
    }
  }

  function Members(ps: seq<Path>): set<Path> {
    set p | p in ps
  }

  lemma {:induction false} WriteUnitsBuild(
    pr: Project, fs: FileSystem, tree: Tree, units: set<Path>, dirty: set<Path>, ps: seq<Path>, all: set<Path>)
    requires AreUnits(pr, fs, all) && units <= all && Members(ps) <= all
    requires AreUnits(pr, fs, units) && UnitsBuilt(pr, fs, tree, units, dirty) && SharedUnits(pr, all) <= dirty
    ensures AreUnits(pr, fs, units + Members(ps)) && forall p :: p in ps ==> p in fs.files && IsUnder(pr.root, p)
    ensures UnitsBuilt(pr, fs, WriteUnits(pr, fs, tree, ps), units + Members(ps),
                       dirty - Members(ps) + SharedUnits(pr, all))
    ensures ENTRY in tree ==>
      ENTRY in WriteUnits(pr, fs, tree, ps) && WriteUnits(pr, fs, tree, ps)[ENTRY] == tree[ENTRY]
  {
    assert forall p :: p in ps ==> p in Members(ps);
    if ps == [] {
      assert units + Members(ps) == units && dirty - Members(ps) + SharedUnits(pr, all) == dirty;
    } else {
      var init, last := ps[..|ps| - 1], ps[|ps| - 1];
      assert ps == init + [last];
      assert Members(ps) == Members(init) + {last};
      WriteUnitsBuild(pr, fs, tree, units, dirty, init, all);
      var written := WriteUnits(pr, fs, tree, init);
      assert WriteUnits(pr, fs, tree, ps) == WriteUnit(pr, fs, written, last);
      WriteUnitBuilds(pr, fs, written, units + Members(init), dirty - Members(init) + SharedUnits(pr, all), last,
                      all, units + Members(ps), dirty - Members(ps) + SharedUnits(pr, all));
    }
  }

  // ---------------------------------------------------------------- the full build

  /** The order in which the source files are emitted: any order of all of them (the builder sorts them). */
  ghost predicate Enumerates(ps: seq<Path>, all: set<Path>) {
    (forall p :: p in ps <==> p in all) && forall i, j :: 0 <= i < j < |ps| ==> ps[i] != ps[j]
  }

  function FullTree(pr: Project, fs: FileSystem, sources: seq<Path>, version: int): Tree
    requires HasConfig(pr, fs) && forall p :: p in sources ==> p in Sources(pr, fs)
  {
    var c := ConfigPath(pr, fs).value;
    assert forall p :: p in Sources(pr, fs) ==> p in fs.files && IsUnder(pr.root, p);
    WriteUnits(pr, fs, map[], sources + if c in sources then [] else [c])[ENTRY := EntryContent(pr, fs, version)]
  }

  lemma FullTreeIsFullBuild(pr: Project, fs: FileSystem, sources: seq<Path>, version: int)
    requires HasConfig(pr, fs) && (forall p :: p in sources <==> p in Sources(pr, fs))
    ensures IsFullBuild(pr, fs, FullTree(pr, fs, sources, version))
    ensures FullTree(pr, fs, sources, version)[ENTRY].version == version
  {
    var c := ConfigPath(pr, fs).value;
    var ps := sources + if c in sources then [] else [c];
    assert Members(ps) == Units(pr, fs);
    var shared := Shared(pr, fs);
    assert UnitsBuilt(pr, fs, map[], {}, shared);
    WriteUnitsBuild(pr, fs, map[], {}, shared, ps, Units(pr, fs));
    assert {} + Members(ps) == Units(pr, fs);
    assert shared - Members(ps) + shared == shared;
    var tree := WriteUnits(pr, fs, map[], ps);
    EntryIsApart(pr, fs, tree, Units(pr, fs), shared, EntryContent(pr, fs, version));
  }

  lemma EntryIsApart(pr: Project, fs: FileSystem, tree: Tree, units: set<Path>, dirty: set<Path>, entry: Content)
    requires AreUnits(pr, fs, units) && UnitsBuilt(pr, fs, tree, units, dirty)
    ensures UnitsBuilt(pr, fs, tree[ENTRY := entry], units, dirty)
  {
    assert tree[ENTRY := entry].Keys - {ENTRY} == tree.Keys - {ENTRY};
    forall p | p in units && p !in dirty ensures Fresh(pr, fs, tree[ENTRY := entry], p) {
      assert Fresh(pr, fs, tree, p);
    }
  }

  /** The full build; it fails when there is no config file, and otherwise only for reasons outside this model. */
  method BuildInternalFull(pr: Project, fs: FileSystem, sources: seq<Path>, version: int) returns (tree: Option<Tree>)
    requires Enumerates(sources, Sources(pr, fs))
    ensures tree.Some? <==> HasConfig(pr, fs)
    ensures tree.Some? ==> tree.value == FullTree(pr, fs, sources, version)
    ensures tree.Some? ==> IsFullBuild(pr, fs, tree.value)
  {
    if !HasConfig(pr, fs) { return None; }
    var c := ConfigPath(pr, fs).value;
    var alreadyEmitted := false;
    for i := 0 to |sources|
      invariant alreadyEmitted <==> c in sources[..i]
    {
      if sources[i] == c {
        alreadyEmitted := true;
      }
    }
    assert sources[..|sources|] == sources;
    var emitted := EmitOutputFiles(pr, fs, map[], sources + if alreadyEmitted then [] else [c]);
    FullTreeIsFullBuild(pr, fs, sources, version);
    return Some(emitted[ENTRY := EntryContent(pr, fs, version)]);
  }

  // ---------------------------------------------------------------- which build a batch of events asks for

  datatype EventKind = Change | Add | Unlink | AddDir | UnlinkDir

  datatype FileEvent = FileEvent(kind: EventKind, path: Path)

  /** An event after which only a full build is safe. */
  predicate Structural(e: FileEvent, config: Option<Path>) {
    e.kind != Change || Some(e.path) == config || IsAsset(BaseName(e.path))
  }

  method RequiresFullConsumerRebuild(events: seq<FileEvent>, config: Path) returns (full: bool)
    ensures full <==> exists e :: e in events && Structural(e, Some(config))
  {
    for i := 0 to |events|
      invariant forall e :: e in events[..i] ==> !Structural(e, Some(config))
    {
      assert events[i] in events;
      if events[i].kind != Change { return true; }
      if events[i].path == config { return true; }
      if IsAsset(BaseName(events[i].path)) { return true; }
    }
    assert events[..|events|] == events;
    return false;
  }

  function Emittable(events: seq<FileEvent>): set<Path> {
    set e | e in events && ShouldEmit(BaseName(e.path)) :: e.path
  }

  method ResolveIncrementalEmitSourcePaths(events: seq<FileEvent>) returns (paths: seq<Path>)
    ensures (exists e :: e in events && (e.kind != Change || IsAsset(BaseName(e.path)))) ==> paths == []
    ensures (forall e :: e in events ==> e.kind == Change && !IsAsset(BaseName(e.path))) ==>
      Enumerates(paths, Emittable(events))
  {
    paths := [];
    for i := 0 to |events|
      invariant forall e :: e in events[..i] ==> e.kind == Change && !IsAsset(BaseName(e.path))
      invariant Enumerates(paths, Emittable(events[..i]))
    {
      assert events[..i + 1] == events[..i] + [events[i]];
      if events[i].kind != Change { return []; }
      if IsAsset(BaseName(events[i].path)) { return []; }
      if ShouldEmit(BaseName(events[i].path)) {
        assert Emittable(events[..i + 1]) == Emittable(events[..i]) + {events[i].path};
        if events[i].path !in paths {
          paths := paths + [events[i].path];
        }
      } else {
        assert Emittable(events[..i + 1]) == Emittable(events[..i]);
      }
    }
    assert events[..|events|] == events;
  }

  // ---------------------------------------------------------------- the incremental build

  function IncrementalTree(pr: Project, fs: FileSystem, previous: Tree, changed: seq<Path>, version: int): Tree
    requires HasConfig(pr, fs) && forall p :: p in changed ==> p in Sources(pr, fs)
  {
    assert forall p :: p in Sources(pr, fs) ==> p in fs.files && IsUnder(pr.root, p);
    WriteUnits(pr, fs, previous, changed)[ENTRY := EntryContent(pr, fs, version)]
  }

  /** Copy forward and emit; it gives up, for a full build to take over, when a changed path is no source any more. */
  method BuildInternalIncremental(
    pr: Project, fs: FileSystem, previous: Tree, changed: seq<Path>, version: int) returns (tree: Option<Tree>)
    ensures tree.Some? <==> HasConfig(pr, fs) && forall p :: p in changed ==> p in Sources(pr, fs)
    ensures tree.Some? ==> tree.value == IncrementalTree(pr, fs, previous, changed, version)
  {
    if !HasConfig(pr, fs) { return None; }
    for i := 0 to |changed|
      invariant forall p :: p in changed[..i] ==> p in Sources(pr, fs)
    {
      if changed[i] !in Sources(pr, fs) { return None; }
    }
    assert changed[..|changed|] == changed;
    var emitted := EmitOutputFiles(pr, fs, previous, changed);
    return Some(emitted[ENTRY := EntryContent(pr, fs, version)]);
  }

  /** Two file systems with the same paths, whose contents agree outside `touched`. */
  predicate AgreeExcept(f: FileSystem, g: FileSystem, touched: set<Path>) {
    && f.files.Keys == g.files.Keys && f.dirs == g.dirs
    && forall p :: p in f.files && p !in touched ==> f.files[p] == g.files[p]
  }

  lemma BuiltForSimilar(pr: Project, f: FileSystem, g: FileSystem, tree: Tree, dirty: set<Path>, touched: set<Path>)
    requires BuiltExcept(pr, f, tree, dirty) && AgreeExcept(f, g, touched)
    requires ConfigPath(pr, f).Some? ==> ConfigPath(pr, f).value !in touched
    ensures BuiltExcept(pr, g, tree, dirty + touched)
  {
    assert f.Paths() == g.Paths();
    assert Sources(pr, f) == Sources(pr, g);
    forall p | p in Units(pr, g) && p !in dirty + touched ensures Fresh(pr, g, tree, p) {
      assert Fresh(pr, f, tree, p);
    }
  }

  /** One incremental build makes its sources fresh and leaves the others as fresh as they were. */
  lemma IncrementalStep(pr: Project, fs: FileSystem, previous: Tree, dirty: set<Path>, changed: seq<Path>, version: int)
    requires BuiltExcept(pr, fs, previous, dirty) && Shared(pr, fs) <= dirty
    requires forall p :: p in changed ==> p in Sources(pr, fs)
    ensures BuiltExcept(pr, fs, IncrementalTree(pr, fs, previous, changed, version),
                        dirty - Members(changed) + Shared(pr, fs))
    ensures IncrementalTree(pr, fs, previous, changed, version)[ENTRY].version == version
  {
    var units, done := Units(pr, fs), Members(changed);
    WriteUnitsBuild(pr, fs, previous, units, dirty, changed, units);
    assert units + done == units;
    var tree := WriteUnits(pr, fs, previous, changed);
    EntryIsApart(pr, fs, tree, units, dirty - done + Shared(pr, fs), EntryContent(pr, fs, version));
  }

  /**
   If the previous tree is the full build of `f0`, and `f1` differs from it in the contents of sources for which the
   batch holds change events, none of them structural, then the incremental build equals the full build of `f1`, in
   every file that no two sources share.
   */
  lemma IncrementalEqualsFull(
    pr: Project, f0: FileSystem, f1: FileSystem, previous: Tree, batch: seq<FileEvent>,
    changed: seq<Path>, sources: seq<Path>, version: int)
    requires IsFullBuild(pr, f0, previous)
    requires AgreeExcept(f0, f1, EventPaths(batch))
    requires forall e :: e in batch ==> !Structural(e, ConfigPath(pr, f1))
    requires HasConfig(pr, f1)
    requires Enumerates(changed, Emittable(batch)) && Emittable(batch) <= Sources(pr, f1)
    requires Enumerates(sources, Sources(pr, f1))
    ensures SameOutside(pr, IncrementalTree(pr, f1, previous, changed, version), FullTree(pr, f1, sources, version),
                        Shared(pr, f1))
    ensures Shared(pr, f1) == {} ==>
      IncrementalTree(pr, f1, previous, changed, version) == FullTree(pr, f1, sources, version)
  {
    SameShared(pr, f0, f1, EventPaths(batch));
    var shared, dirty := Shared(pr, f1), Shared(pr, f1) + EventPaths(batch);
    BuiltForSimilar(pr, f0, f1, previous, shared, EventPaths(batch));
    IncrementalStep(pr, f1, previous, dirty, changed, version);
    FullTreeIsFullBuild(pr, f1, sources, version);
    ChangedUnitsAreEmitted(pr, f1, batch);
    DirtyGrows(pr, f1, IncrementalTree(pr, f1, previous, changed, version), dirty - Members(changed) + shared, shared);
    FullBuildIsUnique(pr, f1, IncrementalTree(pr, f1, previous, changed, version), FullTree(pr, f1, sources, version));
  }

  lemma SameShared(pr: Project, f: FileSystem, g: FileSystem, touched: set<Path>)
    requires AgreeExcept(f, g, touched)
    ensures f.Paths() == g.Paths() && Sources(pr, f) == Sources(pr, g)
    ensures HasConfig(pr, f) <==> HasConfig(pr, g)
    ensures HasConfig(pr, f) ==> Units(pr, f) == Units(pr, g)
    ensures Shared(pr, f) == Shared(pr, g)
  {
    assert f.Paths() == g.Paths();
    assert Sources(pr, f) == Sources(pr, g);
  }

  lemma DirtyGrows(pr: Project, fs: FileSystem, tree: Tree, a: set<Path>, b: set<Path>)
    requires BuiltExcept(pr, fs, tree, a) && forall p :: p in a && p in Units(pr, fs) ==> p in b
    ensures BuiltExcept(pr, fs, tree, b)
  {
  }

  function EventPaths(events: seq<FileEvent>): set<Path> {
    set e | e in events :: e.path
  }

  lemma ChangedUnitsAreEmitted(pr: Project, fs: FileSystem, batch: seq<FileEvent>)
    requires HasConfig(pr, fs) && forall e :: e in batch ==> !Structural(e, ConfigPath(pr, fs))
    ensures Units(pr, fs) * EventPaths(batch) <= Emittable(batch)
  {
    forall p | p in Units(pr, fs) * EventPaths(batch) ensures p in Emittable(batch) {
      var e :| e in batch && e.path == p;
      assert !Structural(e, ConfigPath(pr, fs));
      assert p in Sources(pr, fs);
    }
  }

  /** The last write to a key decides its content. */
  lemma {:induction false} LastWriteWins(pr: Project, fs: FileSystem, tree: Tree, ps: seq<Path>, i: nat)
    requires i < |ps| && forall q :: q in ps ==> q in fs.files && IsUnder(pr.root, q)
    requires forall j :: i < j < |ps| ==> Key(pr, ps[i]) !in KeysOf(pr, ps[j])
    ensures Key(pr, ps[i]) in WriteUnits(pr, fs, tree, ps)
    ensures WriteUnits(pr, fs, tree, ps)[Key(pr, ps[i])] == EmittedContent(pr, fs, ps[i])
  {
    var init, last := ps[..|ps| - 1], ps[|ps| - 1];
    WriteUnitEffect(pr, fs, WriteUnits(pr, fs, tree, init), last);
    if i < |ps| - 1 {
      LastWriteWins(pr, fs, tree, init, i);
    }
  }

  lemma LastOf(pr: Project, fs: FileSystem, tree: Tree, before: seq<Path>, q: Path, after: seq<Path>)
    requires forall r :: r in before + [q] + after ==> r in fs.files && IsUnder(pr.root, r)
    requires q in fs.files && IsUnder(pr.root, q)
    requires forall r :: r in after ==> IsUnder(pr.root, r) && Key(pr, q) !in KeysOf(pr, r)
    ensures Written(WriteUnits(pr, fs, tree, before + [q] + after), Key(pr, q), EmittedContent(pr, fs, q))
  {
    var ps := before + [q] + after;
    assert ps[|before|] == q;
    assert forall j :: |before| < j < |ps| ==> ps[j] == after[j - |before| - 1];
    LastWriteWins(pr, fs, tree, ps, |before|);
  }

  lemma LaterKeysApart(pr: Project, fs: FileSystem, q: Path, rs: seq<Path>)
    requires HasConfig(pr, fs) && q in Units(pr, fs)
    requires forall r :: r in rs ==> r in Units(pr, fs) && IsUnder(pr.root, r) && Key(pr, r) != Key(pr, q)
    ensures forall r :: r in rs ==> IsUnder(pr.root, r) && Key(pr, q) !in KeysOf(pr, r)
  {
    forall r | r in rs ensures IsUnder(pr.root, r) && Key(pr, q) !in KeysOf(pr, r) {
      KeysApart(pr, q, r);
    }
  }

  lemma FullKeepsLast(pr: Project, fs: FileSystem, before: seq<Path>, q: Path, after: seq<Path>, version: int)
    requires HasConfig(pr, fs) && q in Sources(pr, fs)
    requires forall r :: r in before + [q] + after ==> r in Sources(pr, fs)
    requires forall r :: r in after ==> IsUnder(pr.root, r) && Key(pr, r) != Key(pr, q)
    requires Key(pr, ConfigPath(pr, fs).value) != Key(pr, q) || ConfigPath(pr, fs).value in before + [q]
    ensures Written(FullTree(pr, fs, before + [q] + after, version), Key(pr, q), EmittedContent(pr, fs, q))
  {
    var c, sources := ConfigPath(pr, fs).value, before + [q] + after;
    var tail := after + if c in sources then [] else [c];
    var ps := before + [q] + tail;
    assert ps == sources + if c in sources then [] else [c];
    assert forall r :: r in tail ==> r in after || (r == c && c !in sources);
    assert forall r :: r in after ==> r in sources;
    LaterKeysApart(pr, fs, q, tail);
    forall r | r in ps ensures r in fs.files && IsUnder(pr.root, r) {
      assert r in sources || r == c;
    }
    LastOf(pr, fs, map[], before, q, tail);
    assert Key(pr, q)[0] == "app" && ENTRY[0] == "index.js";
  }

  /**
   Why collisions are excluded: when two sources are emitted to one file and `q` is the last of them in the order of
   emission, a full build leaves the text of `q` in it, and an incremental build after a change of the other source `p`
   leaves the text of `p`.
   */
  lemma CollidingSourcesBreakIncremental(
    pr: Project, fs: FileSystem, previous: Tree, before: seq<Path>, q: Path, after: seq<Path>, p: Path, version: int)
    requires HasConfig(pr, fs) && p in Sources(pr, fs) && q in Sources(pr, fs) && Key(pr, p) == Key(pr, q)
    requires forall r :: r in before + [q] + after ==> r in Sources(pr, fs)
    requires forall r :: r in after ==> IsUnder(pr.root, r) && Key(pr, r) != Key(pr, q)
    requires p in before && (Key(pr, ConfigPath(pr, fs).value) != Key(pr, q) || ConfigPath(pr, fs).value in {p, q})
    ensures Written(FullTree(pr, fs, before + [q] + after, version), Key(pr, p), EmittedContent(pr, fs, q))
    ensures Written(IncrementalTree(pr, fs, previous, [p], version), Key(pr, p), EmittedContent(pr, fs, p))
  {
    FullKeepsLast(pr, fs, before, q, after, version);
    LastWriteWins(pr, fs, previous, [p], 0);
    assert Key(pr, p)[0] == "app" && ENTRY[0] == "index.js";
  }

  lemma {:induction false} UnwrittenKeyStays(pr: Project, fs: FileSystem, tree: Tree, ps: seq<Path>, key: Path)
    requires forall p :: p in ps ==> p in fs.files && IsUnder(pr.root, p) && key !in KeysOf(pr, p)
    ensures key in WriteUnits(pr, fs, tree, ps) <==> key in tree
    ensures key in tree ==> WriteUnits(pr, fs, tree, ps)[key] == tree[key]
  {
    if ps != [] {
      UnwrittenKeyStays(pr, fs, tree, ps[..|ps| - 1], key);
      WriteUnitEffect(pr, fs, WriteUnits(pr, fs, tree, ps[..|ps| - 1]), ps[|ps| - 1]);
    }
  }

  /** `q` is the last of the sources, in the order of emission, that is emitted to its file. */
  predicate LastWriter(pr: Project, fs: FileSystem, before: seq<Path>, q: Path, after: seq<Path>)
    requires HasConfig(pr, fs)
  {
    && (forall r :: r in before + [q] + after ==> r in Sources(pr, fs))
    && q in Sources(pr, fs)
    && (forall r :: r in after ==> IsUnder(pr.root, r) && Key(pr, r) != Key(pr, q))
    && (Key(pr, ConfigPath(pr, fs).value) != Key(pr, q) || ConfigPath(pr, fs).value in before + [q])
  }

  /** The file that several sources share, after a change of none of them: both builds leave the text of the last. */
  lemma SharedFileUntouched(
    pr: Project, f0: FileSystem, f1: FileSystem, before: seq<Path>, q: Path, after: seq<Path>,
    touched: set<Path>, changed: seq<Path>, v0: int, v1: int)
    requires HasConfig(pr, f0) && HasConfig(pr, f1) && AgreeExcept(f0, f1, touched) && q !in touched
    requires LastWriter(pr, f0, before, q, after) && LastWriter(pr, f1, before, q, after)
    requires forall p :: p in changed ==> p in Sources(pr, f1) && IsUnder(pr.root, p) && Key(pr, p) != Key(pr, q)
    ensures Written(FullTree(pr, f1, before + [q] + after, v1), Key(pr, q), EmittedContent(pr, f1, q))
    ensures Written(IncrementalTree(pr, f1, FullTree(pr, f0, before + [q] + after, v0), changed, v1),
                    Key(pr, q), EmittedContent(pr, f1, q))
  {
    SameShared(pr, f0, f1, touched);
    FullKeepsLast(pr, f0, before, q, after, v0);
    FullKeepsLast(pr, f1, before, q, after, v1);
    LaterKeysApart(pr, f1, q, changed);
    UnwrittenKeyStays(pr, f1, FullTree(pr, f0, before + [q] + after, v0), changed, Key(pr, q));
    assert Key(pr, q)[0] == "app" && ENTRY[0] == "index.js";
  }

  /** After a change of some of them: the incremental build leaves the text of the last changed one, `p`, and so agrees
      with the full build in this file exactly when `p` and the last source `q` are emitted alike. */
  lemma SharedFileChanged(
    pr: Project, fs: FileSystem, previous: Tree, before: seq<Path>, q: Path, after: seq<Path>,
    earlier: seq<Path>, p: Path, later: seq<Path>, version: int)
    requires HasConfig(pr, fs) && LastWriter(pr, fs, before, q, after)
    requires p in Sources(pr, fs) && Key(pr, p) == Key(pr, q)
    requires forall r :: r in earlier + [p] + later ==> r in Sources(pr, fs)
    requires forall r :: r in later ==> IsUnder(pr.root, r) && Key(pr, r) != Key(pr, q)
    ensures var full := FullTree(pr, fs, before + [q] + after, version);
      var incremental := IncrementalTree(pr, fs, previous, earlier + [p] + later, version);
      && Key(pr, q) in full && Key(pr, q) in incremental
      && (incremental[Key(pr, q)] == full[Key(pr, q)] <==> EmittedContent(pr, fs, p) == EmittedContent(pr, fs, q))
  {
    FullKeepsLast(pr, fs, before, q, after, version);
    assert forall r :: r in later ==> r in earlier + [p] + later;
    LaterKeysApart(pr, fs, p, later);
    forall r | r in earlier + [p] + later ensures r in fs.files && IsUnder(pr.root, r) {
      assert r in Sources(pr, fs);
    }
    LastOf(pr, fs, previous, earlier, p, later);
    assert Key(pr, q)[0] == "app" && ENTRY[0] == "index.js";
  }

  predicate Written(tree: Tree, key: Path, content: Content) {
    key in tree && tree[key] == content
  }
}

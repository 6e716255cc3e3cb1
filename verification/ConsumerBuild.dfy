/**
 What a build of the consumer project writes: the full build of a file system, and the incremental build that copies
 the last tree forward and emits only the changed sources.

 Transpilation and workflow discovery are functions of the project and stay uninterpreted. Output trees are maps from
 paths below the build root, since a finished staging directory is renamed as a whole.
 */
module ConsumerBuild {
  import opened Wrappers
  import opened SourcePaths
  import opened ImportSpecifiers

  /** Transpiled text, with its relative import specifiers singled out. */
  datatype Token = Text(text: string) | Import(specifier: Specifier)

  datatype Content =
    | Module(tokens: seq<Token>)
    | SourceMap(text: string)
    | Asset(text: string)
    | Entry(config: Path, workflows: seq<Path>, version: int)

  type Tree = map<Path, Content>

  datatype FileSystem = FileSystem(files: map<Path, string>, dirs: set<Path>) {
    function Paths(): set<Path> {
      files.Keys + dirs
    }
  }

  datatype Project = Project(
    root: Path,
    configOverride: Option<Path>,
    sourceMaps: bool,
    transpile: (Path, string) -> seq<Token>,
    sourceMap: (Path, string) -> string,
    workflows: (string, set<Path>) -> seq<Path>
  )

  // ---------------------------------------------------------------- which paths are emitted, and where

  const IGNORED_DIRECTORIES := {".codemation", ".git", "dist", "node_modules"}

  function BaseName(p: Path): string {
    if p == [] then "" else Last(p)
  }

  predicate IsAsset(name: string) {
    name == ".env" || ".env." <= name
  }

  predicate EndsWith(s: string, suffix: string) {
    |suffix| <= |s| && s[|s| - |suffix|..] == suffix
  }

  predicate ShouldEmit(name: string) {
    IsAsset(name) || (!EndsWith(name, ".d.ts") && IsSourceExt(Ext(name)))
  }

  predicate IsUnder(root: Path, p: Path) {
    |root| < |p| && p[..|root|] == root
  }

  predicate IsWatched(pr: Project, p: Path) {
    IsUnder(pr.root, p) && forall i :: |pr.root| <= i < |p| ==> p[i] !in IGNORED_DIRECTORIES
  }

  /** The files that the recursive directory walk collects: it skips ignored directories. */
  predicate IsSource(pr: Project, p: Path) {
    && IsUnder(pr.root, p)
    && (forall i :: |pr.root| <= i < |p| - 1 ==> p[i] !in IGNORED_DIRECTORIES)
    && ShouldEmit(Last(p))
  }

  predicate CopiedAsIs(pr: Project, p: Path) {
    IsSource(pr, p) && IsAsset(Last(p))
  }

  function ConventionCandidates(root: Path): seq<Path> {
    [root + ["codemation.config.ts"], root + ["codemation.config.js"],
     root + ["src", "codemation.config.ts"], root + ["src", "codemation.config.js"]]
  }

  function FirstOf(candidates: seq<Path>, paths: set<Path>): Option<Path> {
    if candidates == [] then None
    else if candidates[0] in paths then Some(candidates[0])
    else FirstOf(candidates[1..], paths)
  }

  function ConfigPath(pr: Project, fs: FileSystem): Option<Path> {
    if pr.configOverride.Some? then
      if pr.configOverride.value in fs.Paths() then pr.configOverride else None
    else FirstOf(ConventionCandidates(pr.root), fs.Paths())
  }

  /** There is a config path, it is a file, and it is an ordinary one under the project root. */
  predicate HasConfig(pr: Project, fs: FileSystem) {
    var c := ConfigPath(pr, fs);
    c.Some? && c.value in fs.files && IsUnder(pr.root, c.value) && !IsAsset(Last(c.value))
  }

  function Sources(pr: Project, fs: FileSystem): set<Path> {
    set p | p in fs.files && IsSource(pr, p)
  }

  /** Files under the root; one that is named like an asset is a source, so that it is copied. */
  predicate AreUnits(pr: Project, fs: FileSystem, units: set<Path>) {
    forall p :: p in units ==> p in fs.files && IsUnder(pr.root, p) && (IsAsset(Last(p)) ==> IsSource(pr, p))
  }

  /** Everything a full build emits: the sources, and the config file even if it is not one of them. */
  function Units(pr: Project, fs: FileSystem): (u: set<Path>)
    requires HasConfig(pr, fs)
    ensures AreUnits(pr, fs, u)
  {
    Sources(pr, fs) + {ConfigPath(pr, fs).value}
  }

  const ENTRY: Path := ["index.js"]

  function Key(pr: Project, p: Path): Path
    requires IsUnder(pr.root, p)
  {
    ["app"] + p[|pr.root|..|p| - 1] + [if CopiedAsIs(pr, p) then Last(p) else OutputName(Last(p))]
  }

  function MapKey(key: Path): Path
    requires key != []
  {
    Init(key) + [Last(key) + ".map"]
  }

  function KeysOf(pr: Project, p: Path): set<Path>
    requires IsUnder(pr.root, p)
  {
    {Key(pr, p)} + if pr.sourceMaps && !CopiedAsIs(pr, p) then {MapKey(Key(pr, p))} else {}
  }

  function AllKeys(pr: Project, units: set<Path>): set<Path>
    requires forall p :: p in units ==> IsUnder(pr.root, p)
  {
    set p, k | p in units && k in KeysOf(pr, p) :: k
  }

  /** The units that are emitted to one file with another unit. */
  function SharedUnits(pr: Project, units: set<Path>): set<Path>
    requires forall p :: p in units ==> IsUnder(pr.root, p)
  {
    set p, q | p in units && q in units && p != q && Key(pr, p) == Key(pr, q) :: p
  }

  // ---------------------------------------------------------------- what these names and paths are

  /** Declaration files are not emitted, and of other files those with a source extension and the .env files. */
  lemma EmittableNames(stem: string)
    requires stem != ""
    ensures ShouldEmit(stem + ".ts") <==> IsAsset(stem + ".ts") || !(|stem| >= 2 && stem[|stem| - 2..] == ".d")
    ensures ShouldEmit(stem + ".tsx") && ShouldEmit(stem + ".mts") && ShouldEmit(stem + ".cts")
    ensures ShouldEmit(stem + ".js") <==> IsAsset(stem + ".js")
    ensures IsAsset(".env") && IsAsset(".env." + stem) && ShouldEmit(".env") && ShouldEmit(".env." + stem)
    ensures stem[0] != '.' ==> !IsAsset(stem)
  {
    AppendedExt(stem, ".ts");
    AppendedExt(stem, ".tsx");
    AppendedExt(stem, ".mts");
    AppendedExt(stem, ".cts");
    AppendedExt(stem, ".js");
    EndsInDeclaration(stem);
    NoDeclaration(stem, ".tsx");
    NoDeclaration(stem, ".mts");
    NoDeclaration(stem, ".cts");
  }

  lemma EndsInDeclaration(stem: string)
    ensures EndsWith(stem + ".ts", ".d.ts") <==> EndsWith(stem, ".d")
  {
    var name := stem + ".ts";
    if |stem| >= 2 {
      assert name[|name| - 5..] == stem[|stem| - 2..] + ".ts";
      assert ".d.ts" == ".d" + ".ts";
      assert name[|name| - 5..][..2] == stem[|stem| - 2..] && ".d.ts"[..2] == ".d";
    }
  }

  lemma NoDeclaration(stem: string, ext: string)
    requires |ext| == 4 && ext[1..] != "d.ts"[1..]
    ensures !EndsWith(stem + ext, ".d.ts")
  {
    var name := stem + ext;
    if |name| >= 5 {
      assert name[|name| - 5..][2..] == ext[1..];
      assert ".d.ts"[2..] == ".ts" && "d.ts"[1..] == ".ts";
    }
  }

  predicate IsOrdinary(d: string) {
    d != ".codemation" && d != ".git" && d != "dist" && d != "node_modules"
  }

  lemma OrdinarySegments(p: Path, k: nat, names: seq<string>)
    requires k + |names| <= |p| && p[k..k + |names|] == names
    ensures (forall i :: k <= i < k + |names| ==> p[i] !in IGNORED_DIRECTORIES) <==>
      forall d :: d in names ==> IsOrdinary(d)
  {
    assert forall j :: 0 <= j < |names| ==> names[j] == p[k + j];
    if forall i :: k <= i < k + |names| ==> p[i] !in IGNORED_DIRECTORIES {
      forall d | d in names ensures IsOrdinary(d) {
        var j :| 0 <= j < |names| && names[j] == d;
        assert p[k + j] !in IGNORED_DIRECTORIES;
      }
    } else {
      var i :| k <= i < k + |names| && p[i] in IGNORED_DIRECTORIES;
      assert names[i - k] in names && !IsOrdinary(names[i - k]);
    }
  }

  /** The walk below the root skips four directories, wherever they are; the watcher ignores these names altogether. */
  lemma SourcesBelowRoot(pr: Project, dirs: seq<string>, name: string)
    ensures IsSource(pr, pr.root + dirs + [name]) <==> ShouldEmit(name) && forall d :: d in dirs ==> IsOrdinary(d)
    ensures IsWatched(pr, pr.root + dirs + [name]) <==> forall d :: d in dirs + [name] ==> IsOrdinary(d)
  {
    var p := pr.root + dirs + [name];
    assert p[..|pr.root|] == pr.root && Last(p) == name;
    assert p[|pr.root|..|pr.root| + |dirs|] == dirs;
    assert p[|pr.root|..|pr.root| + |dirs + [name]|] == dirs + [name];
    OrdinarySegments(p, |pr.root|, dirs);
    OrdinarySegments(p, |pr.root|, dirs + [name]);
  }

  /** The config file: the one that was asked for, or the first of the four conventional ones that is there. */
  lemma ConfigIsFirst(pr: Project, fs: FileSystem)
    ensures pr.configOverride.Some? ==>
      ConfigPath(pr, fs) == if pr.configOverride.value in fs.Paths() then pr.configOverride else None
    ensures pr.configOverride.None? ==>
      var there := fs.Paths();
      var inRoot, inSrc := pr.root, pr.root + ["src"];
      ConfigPath(pr, fs) ==
        if inRoot + ["codemation.config.ts"] in there then Some(inRoot + ["codemation.config.ts"])
        else if inRoot + ["codemation.config.js"] in there then Some(inRoot + ["codemation.config.js"])
        else if inSrc + ["codemation.config.ts"] in there then Some(inSrc + ["codemation.config.ts"])
        else if inSrc + ["codemation.config.js"] in there then Some(inSrc + ["codemation.config.js"])
        else None
  {
    var c, there := ConventionCandidates(pr.root), fs.Paths();
    assert pr.root + ["src"] + ["codemation.config.ts"] == c[2] && pr.root + ["src"] + ["codemation.config.js"] == c[3];
    assert FirstOf(c, there) == if c[0] in there then Some(c[0]) else FirstOf(c[1..], there);
    assert FirstOf(c[1..], there) == if c[1] in there then Some(c[1]) else FirstOf(c[1..][1..], there);
    assert c[1..][1..] == c[2..];
    assert FirstOf(c[2..], there) == if c[2] in there then Some(c[2]) else FirstOf(c[2..][1..], there);
    assert c[2..][1..] == c[3..];
    assert FirstOf(c[3..], there) == if c[3] in there then Some(c[3]) else FirstOf(c[3..][1..], there);
    assert c[3..][1..] == [];
  }

  // ---------------------------------------------------------------- contents

  function RewriteTokens(dir: Path, tokens: seq<Token>, paths: set<Path>): seq<Token> {
    seq(|tokens|, i requires 0 <= i < |tokens| =>
      if tokens[i].Import? then Import(Rewrite(dir, tokens[i].specifier, paths)) else tokens[i])
  }

  /** The code is kept token by token; only relative import specifiers may differ. */
  predicate KeepsCode(emitted: seq<Token>, original: seq<Token>) {
    && |emitted| == |original|
    && forall i :: 0 <= i < |original| ==>
         && emitted[i].Import? == original[i].Import?
         && (original[i].Text? || original[i].specifier[0][0] != '.' ==> emitted[i] == original[i])
  }

  lemma RewriteKeepsCode(dir: Path, tokens: seq<Token>, paths: set<Path>)
    ensures KeepsCode(RewriteTokens(dir, tokens, paths), tokens)
  {
  }

  function EmittedContent(pr: Project, fs: FileSystem, p: Path): Content
    requires p in fs.files && IsUnder(pr.root, p)
  {
    if CopiedAsIs(pr, p) then Asset(fs.files[p])
    else Module(RewriteTokens(Init(p), pr.transpile(p, fs.files[p]), fs.Paths()))
  }

  function EntryContent(pr: Project, fs: FileSystem, version: int): Content
    requires HasConfig(pr, fs)
  {
    var c := ConfigPath(pr, fs).value;
    Entry(Key(pr, c), pr.workflows(fs.files[c], fs.Paths()), version)
  }

  /** What emitting one unit does to the tree. */
  function WriteUnit(pr: Project, fs: FileSystem, tree: Tree, p: Path): Tree
    requires p in fs.files && IsUnder(pr.root, p)
  {
    var written := tree[Key(pr, p) := EmittedContent(pr, fs, p)];
    if pr.sourceMaps && !CopiedAsIs(pr, p) then
      written[MapKey(Key(pr, p)) := SourceMap(pr.sourceMap(p, fs.files[p]))]
    else written
  }

  function WriteUnits(pr: Project, fs: FileSystem, tree: Tree, ps: seq<Path>): Tree
    requires forall p :: p in ps ==> p in fs.files && IsUnder(pr.root, p)
  {
    if ps == [] then tree
    else WriteUnit(pr, fs, WriteUnits(pr, fs, tree, ps[..|ps| - 1]), ps[|ps| - 1])
  }

  // ---------------------------------------------------------------- what it means to be built

  /** The tree holds what a fresh emit of `p` would write. */
  predicate Fresh(pr: Project, fs: FileSystem, tree: Tree, p: Path)
    requires p in fs.files && IsUnder(pr.root, p)
  {
    && Key(pr, p) in tree && tree[Key(pr, p)] == EmittedContent(pr, fs, p)
    && (pr.sourceMaps && !CopiedAsIs(pr, p) ==>
          && MapKey(Key(pr, p)) in tree
          && tree[MapKey(Key(pr, p))] == SourceMap(pr.sourceMap(p, fs.files[p])))
  }

  /** The tree consists of the files of `units`, up to date except possibly for those in `dirty`, and maybe an entry. */
  predicate UnitsBuilt(pr: Project, fs: FileSystem, tree: Tree, units: set<Path>, dirty: set<Path>)
    requires AreUnits(pr, fs, units)
  {
    && tree.Keys - {ENTRY} == AllKeys(pr, units)
    && forall p :: p in units && p !in dirty ==> Fresh(pr, fs, tree, p)
  }

  /** The tree is the full build of the file system, except possibly for the files emitted from `dirty` sources. */
  predicate BuiltExcept(pr: Project, fs: FileSystem, tree: Tree, dirty: set<Path>) {
    && HasConfig(pr, fs)
    && UnitsBuilt(pr, fs, tree, Units(pr, fs), dirty)
    && ENTRY in tree && tree[ENTRY].Entry?
    && tree[ENTRY] == EntryContent(pr, fs, tree[ENTRY].version)
  }

  /** What units are emitted to one file; no statement is made about the content of these files. */
  function Shared(pr: Project, fs: FileSystem): set<Path> {
    if HasConfig(pr, fs) then SharedUnits(pr, Units(pr, fs)) else {}
  }

  predicate IsFullBuild(pr: Project, fs: FileSystem, tree: Tree) {
    BuiltExcept(pr, fs, tree, Shared(pr, fs))
  }

  lemma FreshDetermines(pr: Project, fs: FileSystem, a: Tree, b: Tree, p: Path, k: Path)
    requires p in fs.files && IsUnder(pr.root, p) && k in KeysOf(pr, p)
    requires Fresh(pr, fs, a, p) && Fresh(pr, fs, b, p)
    ensures k in a && k in b && a[k] == b[k]
  {
  }

  /** Two trees with the same files, whose contents agree outside the files of some units. */
  predicate SameOutside(pr: Project, a: Tree, b: Tree, units: set<Path>)
    requires forall p :: p in units ==> IsUnder(pr.root, p)
  {
    a.Keys == b.Keys && forall k :: k in a && k !in AllKeys(pr, units) ==> a[k] == b[k]
  }

  /** A full build is determined by the file system, apart from its version and the files that units share. */
  lemma FullBuildIsUnique(pr: Project, fs: FileSystem, a: Tree, b: Tree)
    requires IsFullBuild(pr, fs, a) && IsFullBuild(pr, fs, b) && a[ENTRY].version == b[ENTRY].version
    ensures SameOutside(pr, a, b, Shared(pr, fs))
    ensures Shared(pr, fs) == {} ==> a == b
  {
    SameTrees(pr, fs, a, b, Units(pr, fs), Shared(pr, fs));
    assert AllKeys(pr, {}) == {};
  }

  lemma SameTrees(pr: Project, fs: FileSystem, a: Tree, b: Tree, units: set<Path>, dirty: set<Path>)
    requires AreUnits(pr, fs, units) && UnitsBuilt(pr, fs, a, units, dirty) && UnitsBuilt(pr, fs, b, units, dirty)
    requires dirty <= units && ENTRY in a && ENTRY in b && a[ENTRY] == b[ENTRY]
    ensures SameOutside(pr, a, b, dirty)
  {
    assert a.Keys == AllKeys(pr, units) + {ENTRY} == b.Keys;
    forall k | k in a && k != ENTRY && k !in AllKeys(pr, dirty) ensures a[k] == b[k] {
      SameContent(pr, fs, a, b, units, dirty, k);
    }
  }

  lemma SameContent(pr: Project, fs: FileSystem, a: Tree, b: Tree, units: set<Path>, dirty: set<Path>, k: Path)
    requires AreUnits(pr, fs, units) && UnitsBuilt(pr, fs, a, units, dirty) && UnitsBuilt(pr, fs, b, units, dirty)
    requires dirty <= units && k in a && k in b && k != ENTRY && k !in AllKeys(pr, dirty)
    ensures a[k] == b[k]
  {
    assert k in a.Keys - {ENTRY};
    var p :| p in units && k in KeysOf(pr, p);
    assert p !in dirty;
    FreshDetermines(pr, fs, a, b, p, k);
  }

  // ---------------------------------------------------------------- output paths

  lemma KeyParts(pr: Project, p: Path, q: Path)
    requires IsUnder(pr.root, p) && IsUnder(pr.root, q)
    ensures Key(pr, p) == Key(pr, q) <==>
      && p[|pr.root|..|p| - 1] == q[|pr.root|..|q| - 1]
      && Last(Key(pr, p)) == Last(Key(pr, q))
  {
    assert Key(pr, p)[1..|Key(pr, p)| - 1] == p[|pr.root|..|p| - 1];
    assert Key(pr, q)[1..|Key(pr, q)| - 1] == q[|pr.root|..|q| - 1];
  }

  lemma OutputNameEnds(name: string)
    ensures OutputName(name) != "" && OutputName(name)[|OutputName(name)| - 1] == 's'
  {
  }

  lemma NotAnAsset(name: string, k: nat, rest: string)
    requires !IsAsset(name) && k <= |name| && (k == |name| || name[k] == '.')
    requires |rest| >= 2 && rest[0] == '.' && rest[1] != 'e'
    ensures !IsAsset(name[..k] + rest)
  {
    var o := name[..k] + rest;
    assert o[k] == '.' && o[k + 1] != 'e';
    if k >= 4 && o[..4] == ".env" {
      assert name[..4] == ".env";
      assert |name| > 4 && name[4] != '.';
      assert o[4] != '.';
    }
  }

  /** A module is never emitted under the name of an asset, and neither is its source map. */
  lemma EmittedNamesAreNotAssets(name: string)
    requires !IsAsset(name)
    ensures !IsAsset(OutputName(name)) && !IsAsset(OutputName(name) + ".map")
  {
    SplitName(name);
    var js := JsExt(Ext(name));
    NotAnAsset(name, ExtAt(name), js);
    NotAnAsset(name, ExtAt(name), js + ".map");
    assert OutputName(name) + ".map" == Stem(name) + (js + ".map");
  }

  lemma MapKeyIsInjective(a: Path, b: Path)
    requires a != [] && b != [] && MapKey(a) == MapKey(b)
    ensures a == b
  {
    Tail(Init(a), Init(b), Last(a) + ".map", Last(b) + ".map");
    assert (Last(a) + ".map")[..|Last(a)|] == Last(a) && (Last(b) + ".map")[..|Last(b)|] == Last(b);
    assert a == Init(a) + [Last(a)] && b == Init(b) + [Last(b)];
  }

  /** Files that two units are emitted to are disjoint unless the units collide. */
  lemma KeysApart(pr: Project, p: Path, q: Path)
    requires IsUnder(pr.root, p) && (IsAsset(Last(p)) ==> IsSource(pr, p))
    requires IsUnder(pr.root, q) && (IsAsset(Last(q)) ==> IsSource(pr, q))
    requires Key(pr, p) != Key(pr, q)
    ensures KeysOf(pr, p) !! KeysOf(pr, q)
  {
    if !CopiedAsIs(pr, q) { NotAMap(pr, p, q); }
    if !CopiedAsIs(pr, p) { NotAMap(pr, q, p); }
    forall k | k in KeysOf(pr, p) ensures k !in KeysOf(pr, q) {
      if MapKey(Key(pr, p)) == MapKey(Key(pr, q)) {
        MapKeyIsInjective(Key(pr, p), Key(pr, q));
      }
    }
  }

  lemma NotAMap(pr: Project, p: Path, q: Path)
    requires IsUnder(pr.root, p) && IsUnder(pr.root, q)
    requires !CopiedAsIs(pr, q) && !IsAsset(Last(q))
    ensures Key(pr, p) != MapKey(Key(pr, q))
  {
    assert Last(MapKey(Key(pr, q))) == OutputName(Last(q)) + ".map";
    EmittedNamesAreNotAssets(Last(q));
    OutputNameEnds(Last(p));
  }

  function EmittedName(name: string): string {
    if IsAsset(name) then name else OutputName(name)
  }

  lemma SameEmittedName(a: string, b: string)
    ensures EmittedName(a) == EmittedName(b) <==>
      a == b || (!IsAsset(a) && !IsAsset(b) && Stem(a) == Stem(b) && JsExt(Ext(a)) == JsExt(Ext(b)))
  {
    if !IsAsset(a) { EmittedNamesAreNotAssets(a); }
    if !IsAsset(b) { EmittedNamesAreNotAssets(b); }
    if !IsAsset(a) && !IsAsset(b) {
      JsSuffixes(Stem(a), Stem(b), Ext(a), Ext(b));
      SplitName(a);
      SplitName(b);
    }
  }

  lemma LastOfKey(pr: Project, p: Path)
    requires IsUnder(pr.root, p) && (IsAsset(Last(p)) ==> IsSource(pr, p))
    ensures Last(Key(pr, p)) == EmittedName(Last(p))
  {
  }

  lemma SameDirectory(root: Path, p: Path, q: Path)
    requires IsUnder(root, p) && IsUnder(root, q)
    ensures Init(p) == Init(q) <==> p[|root|..|p| - 1] == q[|root|..|q| - 1]
  {
    assert Init(p) == root + p[|root|..|p| - 1] && Init(q) == root + q[|root|..|q| - 1];
    assert Init(p)[|root|..] == p[|root|..|p| - 1] && Init(q)[|root|..] == q[|root|..|q| - 1];
  }

  lemma SameKey(pr: Project, p: Path, q: Path)
    requires IsUnder(pr.root, p) && (IsAsset(Last(p)) ==> IsSource(pr, p))
    requires IsUnder(pr.root, q) && (IsAsset(Last(q)) ==> IsSource(pr, q))
    ensures Key(pr, p) == Key(pr, q) <==> Init(p) == Init(q) && EmittedName(Last(p)) == EmittedName(Last(q))
  {
    KeyParts(pr, p, q);
    LastOfKey(pr, p);
    LastOfKey(pr, q);
    SameDirectory(pr.root, p, q);
  }

  lemma DifferInLast(p: Path, q: Path)
    requires p != [] && q != [] && p != q && Init(p) == Init(q)
    ensures Last(p) != Last(q)
  {
    assert p == Init(p) + [Last(p)] && q == Init(q) + [Last(q)];
  }

  /** Two units, a config file that is no source included, collide exactly when they lie in one directory and their
      names differ only in extensions that become the same JavaScript extension. */
  lemma CollidingUnits(pr: Project, p: Path, q: Path)
    requires IsUnder(pr.root, p) && (IsAsset(Last(p)) ==> IsSource(pr, p))
    requires IsUnder(pr.root, q) && (IsAsset(Last(q)) ==> IsSource(pr, q)) && p != q
    ensures Key(pr, p) == Key(pr, q) <==>
      && Init(p) == Init(q) && !IsAsset(Last(p)) && !IsAsset(Last(q))
      && Stem(Last(p)) == Stem(Last(q)) && JsExt(Ext(Last(p))) == JsExt(Ext(Last(q)))
  {
    SameKey(pr, p, q);
    SameEmittedName(Last(p), Last(q));
    if Init(p) == Init(q) {
      DifferInLast(p, q);
    }
  }

  /** Two sources collide exactly when one is a .ts file and the other the .tsx file of the same name. */
  lemma CollidingSources(pr: Project, p: Path, q: Path)
    requires IsSource(pr, p) && IsSource(pr, q) && p != q
    ensures Key(pr, p) == Key(pr, q) <==>
      && Init(p) == Init(q) && !IsAsset(Last(p)) && !IsAsset(Last(q))
      && Stem(Last(p)) == Stem(Last(q)) && OnlyTsAgainstTsx(Ext(Last(p)), Ext(Last(q)))
  {
    SameKey(pr, p, q);
    SameEmittedName(Last(p), Last(q));
    if Init(p) == Init(q) {
      DifferInLast(p, q);
      SplitName(Last(p));
      SplitName(Last(q));
    }
  }
}

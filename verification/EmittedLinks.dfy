/**
 The emitted tree links: the import theorem applied to the files of a full build.
 */
module EmittedLinks {
  import opened Wrappers
  import opened SourcePaths
  import opened ImportSpecifiers
  import opened ConsumerBuild

  /** Where the file of a source lies when the tree is at `buildRoot`. */
  lemma KeyIsOutputPath(pr: Project, buildRoot: Path, q: Path)
    requires IsUnder(pr.root, q) && !CopiedAsIs(pr, q)
    ensures buildRoot + Key(pr, q) == OutputPath(pr.root, buildRoot + ["app"], q)
    ensures buildRoot + Init(Key(pr, q)) == buildRoot + ["app"] + q[|pr.root|..|q| - 1]
  {
  }

  lemma AssetKeepsPath(pr: Project, p: Path)
    requires IsUnder(pr.root, p) && CopiedAsIs(pr, p)
    ensures Key(pr, p) == ["app"] + p[|pr.root|..]
  {
    assert p[|pr.root|..] == p[|pr.root|..|p| - 1] + [Last(p)];
  }

  lemma UnsharedIsFresh(pr: Project, fs: FileSystem, tree: Tree, p: Path)
    requires IsFullBuild(pr, fs, tree) && p in Units(pr, fs) && p !in Shared(pr, fs)
    ensures Fresh(pr, fs, tree, p)
  {
  }

  lemma FreshAsset(pr: Project, fs: FileSystem, tree: Tree, p: Path)
    requires p in fs.files && IsUnder(pr.root, p) && CopiedAsIs(pr, p) && Fresh(pr, fs, tree, p)
    ensures Key(pr, p) in tree && tree[Key(pr, p)] == Asset(fs.files[p])
  {
  }

  /** In a full build, an asset that shares no file is copied under its own path. */
  lemma EmittedAsset(pr: Project, fs: FileSystem, tree: Tree, p: Path)
    requires IsFullBuild(pr, fs, tree) && p in Units(pr, fs) && p !in Shared(pr, fs) && CopiedAsIs(pr, p)
    ensures var key := ["app"] + p[|pr.root|..]; key in tree && tree[key] == Asset(fs.files[p])
  {
    UnsharedIsFresh(pr, fs, tree, p);
    AssetKeepsPath(pr, p);
    FreshAsset(pr, fs, tree, p);
  }

  /** Any other unit that shares no file becomes a module with all of its code, next to its source map. */
  lemma EmittedModule(pr: Project, fs: FileSystem, tree: Tree, p: Path)
    requires IsFullBuild(pr, fs, tree) && p in Units(pr, fs) && p !in Shared(pr, fs) && !CopiedAsIs(pr, p)
    ensures var key := ["app"] + p[|pr.root|..|p| - 1] + [OutputName(Last(p))];
      key in tree && tree[key].Module? && KeepsCode(tree[key].tokens, pr.transpile(p, fs.files[p]))
    ensures
      var mapKey := ["app"] + p[|pr.root|..|p| - 1] + [OutputName(Last(p)) + ".map"];
      pr.sourceMaps ==> mapKey in tree && tree[mapKey] == SourceMap(pr.sourceMap(p, fs.files[p]))
  {
    UnsharedIsFresh(pr, fs, tree, p);
    RewriteKeepsCode(Init(p), pr.transpile(p, fs.files[p]), fs.Paths());
  }

  /** The entry file names the emitted config, which is there, and the workflows that are found for it. */
  lemma EmittedEntry(pr: Project, fs: FileSystem, tree: Tree)
    requires IsFullBuild(pr, fs, tree)
    ensures ENTRY in tree && tree[ENTRY].Entry? && tree[ENTRY].config in tree
    ensures var c := ConfigPath(pr, fs).value;
      && tree[ENTRY].config == ["app"] + c[|pr.root|..|c| - 1] + [OutputName(Last(c))]
      && tree[ENTRY].workflows == pr.workflows(fs.files[c], fs.Paths())
  {
    UnitIsEmitted(pr, fs, tree, ConfigPath(pr, fs).value);
  }

  /** And nothing else is in the tree. */
  lemma NothingElseIsEmitted(pr: Project, fs: FileSystem, tree: Tree, key: Path)
    requires IsFullBuild(pr, fs, tree) && key in tree && key != ENTRY
    ensures exists p :: p in Units(pr, fs) && key in KeysOf(pr, p)
  {
    assert key in tree.Keys - {ENTRY};
  }

  /** The module of `p` in a full build, with its tokens rewritten one by one. */
  lemma ModuleOf(pr: Project, fs: FileSystem, tree: Tree, p: Path, i: nat)
    requires IsFullBuild(pr, fs, tree) && p in Units(pr, fs) && p !in Shared(pr, fs) && !CopiedAsIs(pr, p)
    requires i < |pr.transpile(p, fs.files[p])| && pr.transpile(p, fs.files[p])[i].Import?
    ensures Key(pr, p) in tree && tree[Key(pr, p)].Module? && i < |tree[Key(pr, p)].tokens|
    ensures tree[Key(pr, p)].tokens[i] ==
      Import(Rewrite(Init(p), pr.transpile(p, fs.files[p])[i].specifier, fs.Paths()))
  {
    assert Fresh(pr, fs, tree, p);
  }

  lemma UnitIsEmitted(pr: Project, fs: FileSystem, tree: Tree, q: Path)
    requires IsFullBuild(pr, fs, tree) && q in Units(pr, fs)
    ensures Key(pr, q) in tree
  {
    assert Key(pr, q) in KeysOf(pr, q);
    assert Key(pr, q) in tree.Keys - {ENTRY};
  }

  lemma RewrittenFindsKey(
    pr: Project, files: set<Path>, buildRoot: Path, p: Path, s: Specifier, form: Form, q: Path, ext: string)
    requires IsUnder(pr.root, p) && !CopiedAsIs(pr, p) && IsUnder(pr.root, q) && !CopiedAsIs(pr, q) && q in files
    requires Names(form, Init(p), s, q, ext)
    requires SurvivesMove(pr.root, buildRoot + ["app"], p[|pr.root|..|p| - 1], DirectoryPart(form, s))
    ensures Resolve(buildRoot + Init(Key(pr, p)), Rewrite(Init(p), s, files)) == buildRoot + Key(pr, q)
            <==> Links(form, Init(p), s, ext, files)
  {
    var d := p[|pr.root|..|p| - 1];
    assert Init(p) == pr.root + d;
    KeyIsOutputPath(pr, buildRoot, p);
    KeyIsOutputPath(pr, buildRoot, q);
    RewrittenImportFindsOutput(form, pr.root, buildRoot + ["app"], d, s, q, ext, files);
  }

  /**
   In a full build, wherever it is moved to: an import in the emitted module of `p` that named the source `q` finds
   the emitted file of `q`, and that file is there, exactly when `Links` holds. (A source that shares its file with
   another may have its module overwritten, so `p` is one that does not.)
   */
  lemma EmittedImportsLink(
    pr: Project, fs: FileSystem, tree: Tree, buildRoot: Path, p: Path, i: nat, form: Form, q: Path, ext: string)
    requires IsFullBuild(pr, fs, tree)
    requires p in Units(pr, fs) && p !in Shared(pr, fs) && !CopiedAsIs(pr, p)
    requires q in Units(pr, fs) && !CopiedAsIs(pr, q)
    requires i < |pr.transpile(p, fs.files[p])| && pr.transpile(p, fs.files[p])[i].Import?
    requires Names(form, Init(p), pr.transpile(p, fs.files[p])[i].specifier, q, ext)
    requires SurvivesMove(pr.root, buildRoot + ["app"], p[|pr.root|..|p| - 1],
                          DirectoryPart(form, pr.transpile(p, fs.files[p])[i].specifier))
    ensures Key(pr, q) in tree && Key(pr, p) in tree && tree[Key(pr, p)].Module?
    ensures i < |tree[Key(pr, p)].tokens| && tree[Key(pr, p)].tokens[i].Import?
    ensures Resolve(buildRoot + Init(Key(pr, p)), tree[Key(pr, p)].tokens[i].specifier) == buildRoot + Key(pr, q)
            <==> Links(form, Init(p), pr.transpile(p, fs.files[p])[i].specifier, ext, fs.Paths())
  {
    ModuleOf(pr, fs, tree, p, i);
    UnitIsEmitted(pr, fs, tree, q);
    RewrittenFindsKey(pr, fs.Paths(), buildRoot, p, pr.transpile(p, fs.files[p])[i].specifier, form, q, ext);
  }
}

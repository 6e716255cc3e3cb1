/**
 The project of the builder's own watch test, a config file and one workflow, as an instance of the incremental theorem.
 */
module FixtureProject {
  import opened Wrappers
  import opened SourcePaths
  import opened ImportSpecifiers
  import opened ConsumerBuild
  import opened IncrementalBuild

  const ROOT: Path := ["consumer"]
  const CONFIG: Path := ["consumer", "codemation.config.ts"]
  const WORKFLOW: Path := ["consumer", "src", "workflows", "fixture.ts"]

  predicate IsFixture(pr: Project) {
    pr.root == ROOT && pr.configOverride.None?
  }

  function Files(config: string, workflow: string): FileSystem {
    FileSystem(map[CONFIG := config, WORKFLOW := workflow], {})
  }

  lemma NamesAreSources()
    ensures ShouldEmit("codemation.config.ts") && !IsAsset("codemation.config.ts")
    ensures ShouldEmit("fixture.ts") && !IsAsset("fixture.ts")
  {
    assert "codemation.config.ts"[0] == 'c' && "fixture.ts"[0] == 'f';
    AppendedExt("codemation.config", ".ts");
    assert "codemation.config" + ".ts" == "codemation.config.ts";
    AppendedExt("fixture", ".ts");
    assert "fixture" + ".ts" == "fixture.ts";
  }

  lemma FixtureSources(pr: Project, config: string, workflow: string)
    requires IsFixture(pr)
    ensures var fs := Files(config, workflow);
      && Sources(pr, fs) == {CONFIG, WORKFLOW} && ConfigPath(pr, fs) == Some(CONFIG)
      && HasConfig(pr, fs) && Units(pr, fs) == {CONFIG, WORKFLOW} && Shared(pr, fs) == {}
  {
    var fs := Files(config, workflow);
    BothAreSources(pr);
    assert fs.files.Keys == {CONFIG, WORKFLOW};
    assert Sources(pr, fs) == {CONFIG, WORKFLOW};
    assert ConventionCandidates(ROOT)[0] == CONFIG;
    assert ConfigPath(pr, fs) == Some(CONFIG);
    BothApart(pr);
  }

  lemma BothAreSources(pr: Project)
    requires IsFixture(pr)
    ensures IsSource(pr, CONFIG) && IsSource(pr, WORKFLOW) && !IsAsset(Last(CONFIG))
  {
    NamesAreSources();
    assert CONFIG[..1] == ROOT && WORKFLOW[..1] == ROOT;
  }

  lemma BothApart(pr: Project)
    requires IsFixture(pr) && IsUnder(pr.root, CONFIG) && IsUnder(pr.root, WORKFLOW)
    ensures SharedUnits(pr, {CONFIG, WORKFLOW}) == {}
  {
    assert |Key(pr, CONFIG)| != |Key(pr, WORKFLOW)|;
  }

  lemma WorkflowBatch()
    ensures var batch := [FileEvent(Change, WORKFLOW)];
      && EventPaths(batch) == {WORKFLOW} && Emittable(batch) == {WORKFLOW} && Enumerates([WORKFLOW], Emittable(batch))
      && forall e :: e in batch ==> !Structural(e, Some(CONFIG))
  {
    NamesAreSources();
    var batch := [FileEvent(Change, WORKFLOW)];
    assert batch[0] in batch;
  }

  /** After an edit of the workflow the incremental build is the full build, and it shows the new text. */
  lemma WorkflowEdit(pr: Project, config: string, before: string, after: string, v0: int, v1: int)
    requires IsFixture(pr)
    ensures HasConfig(pr, Files(config, before)) && HasConfig(pr, Files(config, after))
    ensures Sources(pr, Files(config, before)) == Sources(pr, Files(config, after)) == {CONFIG, WORKFLOW}
    ensures var built := FullTree(pr, Files(config, before), [CONFIG, WORKFLOW], v0);
      var rebuilt := IncrementalTree(pr, Files(config, after), built, [WORKFLOW], v1);
      && rebuilt == FullTree(pr, Files(config, after), [CONFIG, WORKFLOW], v1)
      && Fresh(pr, Files(config, after), rebuilt, WORKFLOW)
  {
    var f0, f1 := Files(config, before), Files(config, after);
    FixtureSources(pr, config, before);
    FixtureSources(pr, config, after);
    var sources, batch := [CONFIG, WORKFLOW], [FileEvent(Change, WORKFLOW)];
    FullTreeIsFullBuild(pr, f0, sources, v0);
    FullTreeIsFullBuild(pr, f1, sources, v1);
    WorkflowBatch();
    IncrementalEqualsFull(pr, f0, f1, FullTree(pr, f0, sources, v0), batch, [WORKFLOW], sources, v1);
    assert WORKFLOW in Units(pr, f1);
  }
}

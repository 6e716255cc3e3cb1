# Codemation: verified models of its stateful cores

This project models the parts of Codemation that keep state under concurrency or fold unordered input, and proves what
they promise. It is written in Dafny 4.11; `dafny verify dfyconfig.toml` checks all of it.

**The incremental watch builder** (`SourcePaths`, `ImportSpecifiers`, `ConsumerBuild`, `EmittedLinks`,
`IncrementalBuild`, `FixtureProject`, `WatchLoop`, `WatchCoherence`, `OutputBuilder`). A consumer project is a map from
paths to texts. A full build emits every source, the config file and an entry file; an incremental build copies the last
tree forward and emits the changed sources. Relative import specifiers are rewritten so that the emitted tree links. A
debounced loop decides when to build. Proved: a rewritten import finds exactly the emitted file of the source it named
(with the exact conditions under which it does), and a full build has all of the transpiled code; the incremental build
equals the full build in every file that no two sources share; the loop never runs two builds, strands events only under
an exact condition and stops after at most two more iterations; and whenever it comes to rest, the promoted tree is the
full build of the current sources, up to the paths of events that were lost with a failed build. The last theorem holds
for every run, with files changing while a build reads them, and with builds failing at any time.

**The realtime run cache** (`RunSnapshots`, `RunReducer`, `RunCaches`). Events that arrive out of order and repeatedly
are folded into the state of a run and into per-workflow run lists. Proved: what the canvas shows of a node is the join
of what was received, independent of order and repetition; redelivery changes nothing; objects are reused exactly when
nothing visible changed; a completed run has nothing pending or active, and a node that completes completes the run
exactly when no other work is open; the run lists agree with the run states; and exact conditions for what does depend
on the order (a node's status) or may differ (a listed parent).

**The dev session** (`DevRebuildQueue`, `DevSession`, `DevLoop`). Rebuild requests are merged into one pending request,
and each rebuild swaps an in-process runtime behind a proxy, with a failure possible at every await. Proved over all
sessions: every request is carried by a rebuild that starts after it, one rebuild runs at a time, at most one runtime is
alive, every rebuild is announced and answered once, by a completion exactly when it returns with the session idle; exactly
which actions end the session and how, and that queue and session together keep each other's rules.

**Smaller components**: rounded fork edges (`EdgePaths`), the label wrap estimate (`LabelLayout`), the page-visibility
idle timer (`IdleTimer`), the JSON inspector tree (`PrettyTree`), the JWK Set cache under interleaved calls
(`JwksCache`, sections 4.5 and 5 of RFC 7517) and the reference-counted run rooms (`RoomTracker`).

Objects whose methods update fields in the source are classes here; each method is proved equal to a function on the
fields, and the theorems over runs and histories are about those functions.

## Results where the code falls short of its purpose

- `ImportSpecifiers.RuntimeLookalikeBreaks`, `ImportSpecifiers.ParentDirectoryBesideFileBreaks`: `./a.js` for the source
  `a.js.ts`, and `../..` for a directory that has an index and a source file of its name next to it, are rewritten to
  paths where nothing was emitted. `ImportSpecifiers.RewrittenImportFindsOutput` gives the exact condition, and
  `SourcePaths.MovedPath` the exact condition for specifiers that climb out of the project root.
- `IncrementalBuild.CollidingSourcesBreakIncremental`: `a.ts` and `a.tsx` are both emitted as `a.js`; incremental and full
  builds then leave different files. `ConsumerBuild.CollidingSources` and `ConsumerBuild.CollidingUnits` say which files
  collide, and the theorems about builds exempt exactly these. For such a file, `IncrementalBuild.SharedFileUntouched` and
  `IncrementalBuild.SharedFileChanged` say exactly when the two builds agree.
- `WatchCoherence.FailedRebuildLosesEdit`: a failed full rebuild has already dropped the events it took, so an edit can
  stay out of the tree with nothing queued, until the file is edited again (`WatchCoherence.NextEditRepairs`).
  `WatchCoherence.QuiescentTreeIsFullBuild` says that nothing else is missing.
  `WatchCoherence.RejectedStartStrandsEvents`: a rejected `onBuildStarted` can leave queued events with nothing scheduled;
  `WatchLoop.ScheduleOverRuns` says exactly when and until when.
- `RunReducer.StatusDependsOnOrder`: two events of equal rank overwrite each other's status.
  `RunReducer.StatusIndependentOfOrder` gives the exact condition under which the order does not matter.
- `RunCaches.ListedParentMayBeStale`: an invocation event may set a run's parent without updating the run list.
  `RunCaches.ParentsAgreeAfter` says which events do so, and `RunCaches.ListedParentOverHistory` which histories.
  `RunCaches.OneWorkflowPerRunIsNeeded`: events that name one run under two workflows leave a stale entry behind;
  `RunCaches.ForeignEventLeavesListStale` gives the exact condition.
- `DevSession.SessionStaysOpen`: when stopping a failed session fails itself, the command keeps waiting until a later failure
  can be stopped or a signal arrives; a UI process that ends in between is ignored. `DevSession.RestartedRebuildServes`: a
  rebuild reports completion even if the session was stopped while its UI restarted; it serves exactly when it was not.
- `LabelLayout.DegenerateWidth`: with a width of zero every visible text is estimated at the maximal number of lines.
- `PrettyTree.DotsMakeKeysClash`: `{"a": {"b": null}, "a.b": null}` has two nodes with one key.
  `PrettyTree.KeysIdentifyNodesExactly` gives the exact condition on the names of a value: no two entries of one object or
  array spell the same dotted text. Dots alone do no harm (`PrettyTree.UnrelatedNamesIdentifyNodes`).

The idle timer meets its purpose because browsers only report changes of visibility. `IdleTimer.RepeatedEventHarms` says
exactly which repeated events it could not cope with.

## Model

| member | source | states |
|---|---|---|
| SourcePaths.SameOutputName | packages/cli/src/consumer/ConsumerOutputBuilder.ts:647-694 | Two source names are emitted under one name exactly when they are equal or differ only in `.ts` against `.tsx`. |
| SourcePaths.OutputNames | packages/cli/src/consumer/ConsumerOutputBuilder.ts:647-694 | The emitted name of a source: `.ts` and `.tsx` become `.js`, `.mts` becomes `.mjs`, `.cts` becomes `.cjs`, after any stem. |
| SourcePaths.MovedPath | packages/cli/src/consumer/ConsumerOutputBuilder.ts:594-652 | A relative path keeps its meaning when the tree moves from the project root to the output root, exactly when it does not climb out of the root or climbs back into the same names. |
| ImportSpecifiers.ResolveFileImportSpecifier | packages/cli/src/consumer/ConsumerOutputBuilder.ts:613-621 | The result is for the first source extension whose file exists, with its JavaScript extension appended; it is null exactly when no such file exists. |
| ImportSpecifiers.ResolveIndexImportSpecifier | packages/cli/src/consumer/ConsumerOutputBuilder.ts:623-632 | The same for an index file in the named directory. |
| ImportSpecifiers.ResolveRelativeRuntimeSpecifier | packages/cli/src/consumer/ConsumerOutputBuilder.ts:594-611 | The rewriting with its branches in order computes `Rewrite`, the function of the theorems below, and leaves a specifier as it is exactly as `KeptSpecifiers` says. |
| ImportSpecifiers.KeptSpecifiers | packages/cli/src/consumer/ConsumerOutputBuilder.ts:594-632 | A specifier is left as it is exactly when it is not relative, has a runtime extension already, or has no source extension and neither a file nor an index candidate is there. |
| ImportSpecifiers.ExtensionlessSpecifier | packages/cli/src/consumer/ConsumerOutputBuilder.ts:605-621 | A relative specifier without an extension gets the JavaScript extension of the first of the four candidates that is there, and otherwise names an index. |
| ImportSpecifiers.IndexSpecifier | packages/cli/src/consumer/ConsumerOutputBuilder.ts:623-632 | The index it names is the first of the four that is there; without one it stays as it is. |
| ImportSpecifiers.RewrittenImportFindsOutput | packages/cli/src/consumer/ConsumerOutputBuilder.ts:594-652 | For a specifier that names an existing source with its extension, without it, or as a directory: the rewritten one, resolved from the output directory, is the output path of that source, exactly under the stated condition on the last segment and the candidates found first. |
| ImportSpecifiers.RewriteTwice | packages/cli/src/consumer/ConsumerOutputBuilder.ts:594-611 | Rewriting a rewritten specifier changes nothing. |
| ImportSpecifiers.RuntimeLookalikeBreaks | packages/cli/src/consumer/ConsumerOutputBuilder.ts:598-601 | An extensionless import whose last part looks like a runtime extension names an existing source, and the rewritten one does not find its output. |
| ImportSpecifiers.ParentDirectoryBesideFileBreaks | packages/cli/src/consumer/ConsumerOutputBuilder.ts:613-621 | An import of a parent directory with an index, next to a file of its name, is rewritten to a path that is not the output of the index. |
| ConsumerBuild.EmittableNames | packages/cli/src/consumer/ConsumerOutputBuilder.ts:427-441 | Which file names are emitted: those with one of the source extensions except declarations, and environment files, which are assets. |
| ConsumerBuild.SourcesBelowRoot | packages/cli/src/consumer/ConsumerOutputBuilder.ts:404-425 | A file below the root is a source exactly when its name is emitted and none of the directories above it is ignored, and is watched exactly when no segment is. |
| ConsumerBuild.ConfigIsFirst | packages/cli/src/consumer/ConsumerOutputBuilder.ts:719-743 | The config is the one asked for, if it is there, and otherwise the first of the four conventional ones that is. |
| ConsumerBuild.KeysApart | packages/cli/src/consumer/ConsumerOutputBuilder.ts:443-466 | Sources with different output paths share no output file, source maps and copied assets included. |
| ConsumerBuild.CollidingUnits | packages/cli/src/consumer/ConsumerOutputBuilder.ts:647-694 | Any two emitted files, a config file that is no source included, share an output exactly when their names differ only in extensions that become one JavaScript extension. |
| ConsumerBuild.CollidingSources | packages/cli/src/consumer/ConsumerOutputBuilder.ts:647-694 | Two sources are emitted to one file exactly when they are the `.ts` and `.tsx` file of one name. |
| ConsumerBuild.FullBuildIsUnique | packages/cli/src/consumer/ConsumerOutputBuilder.ts:345-381 | Being a full build determines the tree, apart from the build version and the files that sources share. |
| EmittedLinks.EmittedModule | packages/cli/src/consumer/ConsumerOutputBuilder.ts:443-466 | In a full build, a unit that shares no file becomes a module under its moved path and emitted name that has all of the transpiled code, token by token, with only import specifiers changed; its source map is next to it when the option is set. |
| EmittedLinks.EmittedAsset | packages/cli/src/consumer/ConsumerOutputBuilder.ts:437-447 | An environment file is copied as it is, under its own path. |
| EmittedLinks.EmittedEntry | packages/cli/src/consumer/ConsumerOutputBuilder.ts:501-556 | The entry file imports the emitted config, which is in the tree, and lists the workflows that are found for it. |
| EmittedLinks.NothingElseIsEmitted | packages/cli/src/consumer/ConsumerOutputBuilder.ts:345-381 | Every other file of a full build is an output of a source or of the config. |
| EmittedLinks.EmittedImportsLink | packages/cli/src/consumer/ConsumerOutputBuilder.ts:449-466 | In a full build, moved anywhere: an import in an emitted module that named a source finds that source's emitted file, which is there, under the same exact condition. |
| IncrementalBuild.EmitSourceFile | packages/cli/src/consumer/ConsumerOutputBuilder.ts:443-466 | Emitting one source writes its output, with every import token rewritten and every other token kept, and its map, and nothing else. |
| IncrementalBuild.BuildInternalFull | packages/cli/src/consumer/ConsumerOutputBuilder.ts:345-381 | The loop over all sources and the config produces a full build of the file system, and fails exactly when there is no config file under the root. |
| IncrementalBuild.FullTreeIsFullBuild | packages/cli/src/consumer/ConsumerOutputBuilder.ts:364-379 | Emitting the sources in any order gives a tree in which every output is up to date and no other file is present. |
| IncrementalBuild.RequiresFullConsumerRebuild | packages/cli/src/consumer/ConsumerOutputBuilder.ts:187-204 | A full rebuild is asked for exactly when some event is not a change, or is of the config or of an asset. |
| IncrementalBuild.ResolveIncrementalEmitSourcePaths | packages/cli/src/consumer/ConsumerOutputBuilder.ts:206-223 | The emittable paths of the batch, each once; nothing when a structural event is present. |
| IncrementalBuild.BuildInternalIncremental | packages/cli/src/consumer/ConsumerOutputBuilder.ts:302-343 | Copy forward and emit the changed sources; it gives up exactly when a changed path is no source or the config is missing. |
| IncrementalBuild.IncrementalStep | packages/cli/src/consumer/ConsumerOutputBuilder.ts:333-341 | An incremental build makes the changed sources up to date and leaves every other output as it was. |
| IncrementalBuild.IncrementalEqualsFull | packages/cli/src/consumer/ConsumerOutputBuilder.ts:159-223 | From a full build of one file system, the incremental build of a batch of content changes is the full build of the next, in every file that no two sources share; entirely, if there are no such sources. |
| FixtureProject.WorkflowEdit | packages/cli/test/consumerOutputBuilder.test.ts:76-113 | In the project of the watch test, the incremental build after an edit of the workflow is the full build and shows the new text. |
| IncrementalBuild.CollidingSourcesBreakIncremental | packages/cli/src/consumer/ConsumerOutputBuilder.ts:333-341 | With colliding sources the full build keeps the text of the last one and the incremental build that of the changed one. |
| IncrementalBuild.SharedFileUntouched | packages/cli/src/consumer/ConsumerOutputBuilder.ts:333-341 | If no changed source is emitted to a shared file, both builds leave the text of the last source in it. |
| IncrementalBuild.SharedFileChanged | packages/cli/src/consumer/ConsumerOutputBuilder.ts:333-341 | Otherwise they agree in that file exactly when the last changed source and the last source are emitted alike. |
| WatchLoop.StepKeepsSchedule | packages/cli/src/consumer/ConsumerOutputBuilder.ts:109-157 | Every step keeps at most one loop, a loop behind every pending build, and a wake-up behind every queued event. |
| WatchLoop.BatchInOrder | packages/cli/src/consumer/ConsumerOutputBuilder.ts:109-157 | From rest, the events that arrive before the timer fires are the batch of one build, in the order of arrival. |
| WatchLoop.RejectedStart | packages/cli/src/consumer/ConsumerOutputBuilder.ts:128-150 | A rejected onBuildStarted strands the queued events exactly when no timer is armed and no build pending; any event brings them back. |
| WatchLoop.ScheduleOverRuns | packages/cli/src/consumer/ConsumerOutputBuilder.ts:120-157 | Over every run: single flight, and queued events are going to be taken, except exactly from a rejected onBuildStarted that found nothing newer to the next event. |
| WatchLoop.FailureIsReportedLast | packages/cli/src/consumer/ConsumerOutputBuilder.ts:137-143 | A failed build is reported exactly when no timer is armed and no build pending, and then no event is queued either. |
| WatchLoop.AtMostTwoMoreIterations | packages/cli/src/consumer/ConsumerOutputBuilder.ts:128-151 | After the last file event at most two iterations begin, within seventeen steps, and the measure is zero exactly when the loop has stopped. |
| WatchLoop.NeverStuck | packages/cli/src/consumer/ConsumerOutputBuilder.ts:120-151 | Until the loop has stopped, some step other than a file event is possible. |
| WatchCoherence.IncrementalIsUpToDate | packages/cli/src/consumer/ConsumerOutputBuilder.ts:302-343 | A finished incremental build is up to date except for what still has an event outstanding or lost, even if files changed while it ran; it makes up for lost changes of the paths it emits. |
| WatchCoherence.FullIsUpToDate | packages/cli/src/consumer/ConsumerOutputBuilder.ts:345-381 | A finished full build is up to date except for what has an event outstanding. |
| WatchCoherence.RunIsCoherent | packages/cli/src/consumer/ConsumerOutputBuilder.ts:120-185 | Over every run, what is out of date in the promoted tree has an event undelivered, queued, in the batch being built, or lost with a failed build. |
| WatchCoherence.QuiescentTreeIsFullBuild | packages/cli/src/consumer/ConsumerOutputBuilder.ts:105-185 | At rest the promoted tree is the full build of the current sources up to the paths of stranded and lost events, which are named; events are stranded under an exact condition. |
| WatchCoherence.RestAfterRunWithoutFailure | packages/cli/src/consumer/ConsumerOutputBuilder.ts:105-185 | In every run in which no build fails, the tree at rest is the full build of the current sources. |
| WatchCoherence.RestAfterFullBuild | packages/cli/src/consumer/ConsumerOutputBuilder.ts:105-185 | Whatever failed before, the same holds once a full build has succeeded and nothing has failed since. |
| WatchCoherence.EditIsBuiltIncrementally | packages/cli/src/consumer/ConsumerOutputBuilder.ts:109-185 | From rest, an edit of a source reaches an incremental build of exactly that source, after which the tree is the full build again; this also makes up for a failed build of an earlier edit of it. |
| WatchCoherence.BuildMayMissEdit | packages/cli/src/consumer/ConsumerOutputBuilder.ts:159-185 | A build that runs while a file is edited may have read it before or after, and the event of the edit waits in either case. |
| WatchCoherence.FailedRebuildLosesEdit | packages/cli/src/consumer/ConsumerOutputBuilder.ts:133-143 | A failed full rebuild drops its batch: a run that ends at rest, with nothing queued, the edit recorded as lost, and missing from the tree. |
| WatchCoherence.NextEditRepairs | packages/cli/src/consumer/ConsumerOutputBuilder.ts:128-157 | After that run, the next edit of the same source leads to the full build of the current sources again. |
| WatchCoherence.RejectedStartStrandsEvents | packages/cli/src/consumer/ConsumerOutputBuilder.ts:128-150 | A rejected onBuildStarted ends the loop with events queued and nothing scheduled. |
| OutputBuilder.ConsumerOutputBuilder.OnWatchEvent | packages/cli/src/consumer/ConsumerOutputBuilder.ts:109-117 | The listener queues the event and arms the timer: the scheduler's event step. |
| OutputBuilder.ConsumerOutputBuilder.OnDebounceElapsed | packages/cli/src/consumer/ConsumerOutputBuilder.ts:394-401 | The timer's step: a pending build, and a loop unless one is running. |
| OutputBuilder.ConsumerOutputBuilder.RunFromHead | packages/cli/src/consumer/ConsumerOutputBuilder.ts:128-134 | The loop's test and what follows it up to the next await. |
| OutputBuilder.ConsumerOutputBuilder.LeaveLoop | packages/cli/src/consumer/ConsumerOutputBuilder.ts:145-150 | The finally block ends the loop or starts it over. |
| OutputBuilder.ConsumerOutputBuilder.OnBuildError | packages/cli/src/consumer/ConsumerOutputBuilder.ts:137-143 | A failure is reported only when nothing newer is waiting. |
| OutputBuilder.ConsumerOutputBuilder.CreateBuildVersion | packages/cli/src/consumer/ConsumerOutputBuilder.ts:713-717 | Versions increase strictly and are not behind the clock. |
| OutputBuilder.ConsumerOutputBuilder.BuildInternal | packages/cli/src/consumer/ConsumerOutputBuilder.ts:159-185 | Which kind of build runs under which conditions, what it leaves on disk, and that the outcome is one the loop's theorems allow. |
| RunSnapshots.MergeItemRecordsMonotonic | packages/canvas-core/src/realtime/realtimeRunMutations.ts:32-50 | The merge never empties a port: its non-empty counts are the old ones overridden by the new ones. |
| RunSnapshots.MergedItems | packages/canvas-core/src/realtime/realtimeRunMutations.ts:32-50 | After a merge a port has the new items, unless there are none and there were some before. |
| RunSnapshots.RecordsAreCanvasEquivalent | packages/canvas-core/src/realtime/realtimeRunMutations.ts:52-64 | Two records are equivalent exactly when they have the same number of items on every port, an absent port having none. |
| RunSnapshots.MergeKeepsExactlyWhenNothingIsAdded | packages/canvas-core/src/realtime/realtimeRunMutations.ts:66-100 | The previous snapshot is kept exactly when the new one has no other status of at least its rank and no port count of its own; what the canvas shows is the merge in every case. |
| RunSnapshots.MergeSnapshotTwice | packages/canvas-core/src/realtime/realtimeRunMutations.ts:66-100 | Merging a snapshot a second time changes nothing. |
| RunSnapshots.MergeIsJoin | packages/canvas-core/src/realtime/realtimeRunMutations.ts:66-100 | Rank and non-empty ports of a merge are the join of the two snapshots. |
| RunSnapshots.StatusNeverGoesBack | packages/canvas-core/src/realtime/realtimeRunMutations.ts:15-100 | A node shows a new status exactly when that moves it on through pending, queued, running, succeeded and broken; an ended node stays ended. |
| RunSnapshots.MergeSnapshotMonotonic | packages/canvas-core/src/realtime/realtimeRunMutations.ts:66-100 | The very object `prev` is returned exactly when nothing is added; otherwise a new object with the merged content. |
| RunSnapshots.MergeNodeMapObjects | packages/canvas-core/src/realtime/realtimeRunMutations.ts:107-127 | The content is the pointwise merge, and the very map object is kept exactly when the node ids match and every node adds nothing. |
| RunReducer.RedeliveryIsHarmless | packages/canvas-core/src/realtime/realtimeRunMutations.ts:175-331 | For every state and event, reducing the event twice in a row is reducing it once. |
| RunReducer.NodeEventsJoin | packages/canvas-core/src/realtime/realtimeRunMutations.ts:258-331 | After any list of node events a node's rank and ports are the least upper bound of the start and the events. |
| RunReducer.OrderAndRepetitionDoNotMatter | packages/canvas-core/src/realtime/realtimeRunMutations.ts:258-331 | Two lists with the same node events, in any order and number, give the same rank and ports. |
| RunReducer.StatusIndependentOfOrder | packages/canvas-core/src/realtime/realtimeRunMutations.ts:15-30 | A node's status is the same for every order of the events exactly when its events of highest rank, if not outranked by the start, carry one status. |
| RunReducer.OneTopStatusDecides | packages/canvas-core/src/realtime/realtimeRunMutations.ts:66-100 | Under that condition repetitions do not matter either. |
| RunReducer.StatusDependsOnOrder | packages/canvas-core/src/realtime/realtimeRunMutations.ts:15-30 | Two events of equal rank for which the order decides the status. |
| RunReducer.OneEventKeepsCompletedFinished | packages/canvas-core/src/realtime/realtimeRunMutations.ts:296-330 | From a state in which completed means finished, an event keeps it exactly when it passes a check on the event and the cached snapshots. |
| RunReducer.CompletedRunsAreFinished | packages/canvas-core/src/realtime/realtimeRunMutations.ts:102-149 | In every state reachable by well-formed events, a completed run has nothing pending and no queued or running node. |
| RunReducer.StatusAfterNodeEvent | packages/canvas-core/src/realtime/realtimeRunMutations.ts:314-321 | From a run that is not completed, a node event makes it completed exactly when a node completes and nothing is pending or active then; it is failed exactly after a failed node, or when it was failed and other work is still open. |
| RunReducer.PendingIsOpen | packages/canvas-core/src/realtime/realtimeRunMutations.ts:296-310 | After any node events, something is pending exactly when the last event that queued or started a node was not followed by the end of that node; and it is the execution that this event describes. |
| RunReducer.RunCompletes | packages/canvas-core/src/realtime/realtimeRunMutations.ts:296-321 | After any node events the last of which completes a node, the run is completed exactly when no event is open and no node is left queued or running. |
| RunReducer.FinishedRunIsCompleted | packages/canvas-core/src/realtime/realtimeRunMutations.ts:258-331 | In whatever order the events came: when every node that was named has ended and nothing is open, a last completed node leaves the run completed. |
| RunReducer.CreatedRunIsFresh | packages/canvas-core/src/realtime/realtimeRunMutations.ts:134-149 | A created run is running with nothing cached, whatever was cached under its id. |
| RunReducer.NodeEventChangesItsNode | packages/canvas-core/src/realtime/realtimeRunMutations.ts:258-331 | A node event changes its node and the outputs of that node; the other nodes, the identity, the start and the first parent of the run stay. |
| RunReducer.InvocationEventIsRecorded | packages/canvas-core/src/realtime/realtimeRunMutations.ts:206-256 | An invocation event records its invocation, and a first parent; status, nodes and all other records stay. |
| RunReducer.SavedStateReplaces | packages/canvas-core/src/realtime/realtimeRunMutations.ts:102-149 | A saved state replaces everything but the snapshots of its nodes, which are merged with the cached ones. |
| RunReducer.MergeConnectionInvocation | packages/canvas-core/src/realtime/realtimeRunMutations.ts:237-250 | A record replaces those with its id in place or is appended; ids stay unique and other records stay put. |
| RunReducer.ReduceWorkflowEvent | packages/canvas-core/src/realtime/realtimeRunMutations.ts:175-204 | The reducer with its loops computes the transition function of the theorems. |
| RunCaches.MergeRunSummaryList | packages/canvas-core/src/realtime/realtimeRunMutations.ts:163-173 | One entry per run, latest start first, the run's entry replaced or added and all others kept. |
| RunCaches.PutPlace | packages/canvas-core/src/realtime/realtimeRunMutations.ts:167-172 | On a sorted list a known run with the same start stays in place, and a new run goes before the runs that did not start later. |
| RunCaches.ApplyKeepsAgreement | packages/canvas-core/src/realtime/realtimeRunMutations.ts:333-376 | Every event with consistent ids keeps the two caches in agreement, invocation events included. |
| RunCaches.CachesAgree | packages/canvas-core/src/realtime/realtimeRunMutations.ts:333-376 | After any history from empty caches: unique runs, latest first, and every entry shows its run's cached ids, status, start and options. |
| RunCaches.ListedRuns | packages/canvas-core/src/realtime/realtimeRunMutations.ts:364-375 | A run is listed exactly when some event other than an invocation named it. |
| RunCaches.ParentsAgreeAfter | packages/canvas-core/src/realtime/realtimeRunMutations.ts:237-256 | From caches whose parents agree, an event keeps them so exactly when it is not an invocation event that brings the first parent to a listed run. |
| RunCaches.ListedParentOverHistory | packages/canvas-core/src/realtime/realtimeRunMutations.ts:333-376 | Over every history, a run's listed parent is the cached one exactly when there was one at its last listing or no later invocation event brings one. |
| RunCaches.ListedParentMayBeStale | packages/canvas-core/src/realtime/realtimeRunMutations.ts:251-255 | A history after which the listed parent differs from the cached one. |
| RunCaches.ForeignEventLeavesListStale | packages/canvas-core/src/realtime/realtimeRunMutations.ts:333-376 | An event that names a listed run under another workflow leaves its list in agreement exactly when it changes nothing a summary shows. |
| RunCaches.OneWorkflowPerRunIsNeeded | packages/canvas-core/src/realtime/realtimeRunMutations.ts:342-343 | Events that name a run under two workflows leave a stale status in the first list. |
| RunCaches.QueryClient.ApplyWorkflowEvent | packages/canvas-core/src/realtime/realtimeRunMutations.ts:333-376 | The writes to the two caches are the step that the agreement theorems are about. |
| DevRebuildQueue.OneRebuildAtATime | packages/cli/src/dev/DevRebuildQueue.ts:17-39 | Never two rebuilds in flight, and a request waits only behind a running one, failed runs included. |
| DevRebuildQueue.NoRequestIsLost | packages/cli/src/dev/DevRebuildQueue.ts:17-53 | The requests, in order and with repetitions, are cut into consecutive groups, one for each rebuild started or waiting, which carries the paths, the UI restart and the last config path of its group. |
| DevRebuildQueue.RequestIsServedLater | packages/cli/src/dev/DevRebuildQueue.ts:17-53 | Every request is carried in full by a rebuild that had not been started when it was made: its paths, its UI restart, and the last config path among it and the later requests of that rebuild. |
| DevRebuildQueue.DevRebuildQueue.MergePendingRequest | packages/cli/src/dev/DevRebuildQueue.ts:41-53 | The merged request has all paths of both, without repeats and in the order in which they came first. |
| DevRebuildQueue.DevRebuildQueue.EnqueueRequest | packages/cli/src/dev/DevRebuildQueue.ts:17-23 | Enqueueing merges, and starts a drain when none is running. |
| DevSession.RebuildSettles | packages/cli/src/commands/DevCommand.ts:583-671 | Whatever fails, runtimes do not pile up, the current runtime is the routed one, and a rebuild that returns is idle and serving or errored with neither runtime nor route. |
| DevSession.RestartedRebuildServes | packages/cli/src/commands/DevCommand.ts:650-695 | A rebuild that awaited the UI restart is serving exactly when no failure or signal stopped the session meanwhile; exits of the old UI change nothing. |
| DevSession.RebuildAnswersOnce | packages/cli/src/commands/DevCommand.ts:595-670 | Each rebuild broadcasts one start and exactly one completion or failure after it (which one is said by `SessionAnswersRightly`). |
| DevSession.SessionAnswersRightly | packages/cli/src/commands/DevCommand.ts:595-671 | Over every session: one completion is broadcast for each rebuild that returned with the status idle, one failure for each that ended in any other way, none otherwise, and each rebuild is one of these or awaits the UI. |
| DevSession.StartIsObserved | packages/cli/src/commands/DevCommand.ts:595-664 | All that is observed of a rebuild, by how far it gets: its start, the stop of the old runtime, the new runtime if there is one, and a completion only when nothing failed. |
| DevSession.SessionSettles | packages/cli/src/commands/DevCommand.ts:376-395 | The same over every session: a boot that may fail, then rebuilds, and failures, UI exits and shutdowns also while a UI restarts; every rebuild is answered once, except for one that awaits the UI. |
| DevSession.SessionStaysOpen | packages/cli/src/commands/DevCommand.ts:491-510 | The command keeps waiting exactly when there were only rebuilds, failed sessions whose stop failed too, and exits of a UI that was being restarted or after a requested stop. |
| DevSession.FailedSessionRejects | packages/cli/src/commands/DevCommand.ts:730-739 | The command fails exactly when the first action that ends the session is a failure whose stop succeeds or a broken UI, in the state in which it runs. |
| DevSession.DevCommandSession.OnUiExited | packages/cli/src/commands/DevCommand.ts:491-510 | A UI exit is ignored after a requested stop or while the UI is restarted; otherwise it ends the session. |
| DevSession.DevCommandSession.RunShutdown | packages/cli/src/commands/DevCommand.ts:422-443 | A signal stops everything and resolves the stop promise, whatever fails. |
| DevSession.DevCommandSession.RunQueuedRebuild | packages/cli/src/commands/DevCommand.ts:583-671 | The rebuild with its early returns and catch blocks is the step of the theorems. |
| DevSession.DevCommandSession.RunToUiRestart | packages/cli/src/commands/DevCommand.ts:595-664 | Up to the await of the UI restart it is the first of its two steps, and what it adds to the log is `Observed`. |
| DevSession.DevCommandSession.BeginUiRestart | packages/cli/src/commands/DevCommand.ts:673-685 | The restarting flag goes up exactly when the settings could be loaded. |
| DevSession.DevCommandSession.FinishUiRestart | packages/cli/src/commands/DevCommand.ts:686-695 | The restarting flag is down again however the restart ends, and the rebuild is answered. |
| DevSession.DevCommandSession.StopLiveProcesses | packages/cli/src/commands/DevCommand.ts:741-768 | Route and runtime are gone and a stop was attempted, even when a later operation fails. |
| DevLoop.LoopIsASession | packages/cli/src/commands/DevCommand.ts:522-580 | Over every run of queue and session: no rebuild begins before the one before it has ended, and the session performs the queue's rebuilds, each once, in order, and with their UI restarts. |
| DevLoop.RequestsArePerformed | packages/cli/src/commands/DevCommand.ts:522-580 | When no rebuild is in flight, every request has been performed by a rebuild started after it, with its UI restart. |
| DevLoop.NothingIsMadeUp | packages/cli/src/commands/DevCommand.ts:522-580 | Over every run: no request, no outside action and no ending of a rebuild is made up, dropped or reordered between queue and session. |
| DevLoop.RebuildsGoOn | packages/cli/src/commands/DevCommand.ts:522-580 | A rebuild in flight always has a step of its own to take. |
| EdgePaths.BendStaysOnItsSegments | packages/canvas-core/src/canvas-lib/WorkflowCanvasRoundedOrthogonalPathPlanner.ts:32-55 | A bend starts and ends on its two segments and trims both alike, by at most half of either and at most the radius. |
| EdgePaths.CurvesAreBends | packages/canvas-core/src/canvas-lib/WorkflowCanvasRoundedOrthogonalPathPlanner.ts:32-55 | Every curve of a path has an inner corner as its control; the line before it ends on the segment before the corner and the curve on the one after it, both at the same distance from the corner, at most the radius and half of either segment. |
| EdgePaths.DrawnInOrder | packages/canvas-core/src/canvas-lib/WorkflowCanvasRoundedOrthogonalPathPlanner.ts:10-30 | The path moves to the first point, goes straight through or bends at every inner one in order, and ends at the last. |
| EdgePaths.StraightIsCollinear | packages/canvas-core/src/canvas-lib/WorkflowCanvasRoundedOrthogonalPathPlanner.ts:43-46 | A corner is passed straight exactly when its three points are collinear. |
| EdgePaths.BendsDoNotOverlap | packages/canvas-core/src/canvas-lib/WorkflowCanvasRoundedOrthogonalPathPlanner.ts:10-30 | Along every segment the path leaves one bend no later than it enters the next. |
| EdgePaths.PathStaysInBox | packages/canvas-core/src/canvas-lib/WorkflowCanvasRoundedOrthogonalPathPlanner.ts:10-30 | All points and control points of the path are in every box that holds the corners. |
| EdgePaths.DrawnCurvesStayInBox | packages/canvas-core/src/canvas-lib/WorkflowCanvasRoundedOrthogonalPathPlanner.ts:10-54 | All points of every curve of the path, drawn from the end of the command before it, are in every such box. |
| EdgePaths.ForkIsMonotone | packages/canvas-core/src/canvas-lib/WorkflowCanvasSymmetricForkPathPlanner.ts:20-34 | The fork polyline runs from source to target without turning back exactly when the offset is not negative or the verticals collapse. |
| EdgePaths.ForkVerticals | packages/canvas-core/src/canvas-lib/WorkflowCanvasSymmetricForkPathPlanner.ts:11-42 | Where the verticals of the fork stand: the offset away from the endpoints if that leaves more than half a pixel between them, and both in the middle otherwise. |
| EdgePaths.ForkStaysInBox | packages/canvas-core/src/canvas-lib/WorkflowCanvasSymmetricForkPathPlanner.ts:11-42 | The drawn fork and its label stay in the box of the endpoints exactly when the offset is not negative, the verticals collapse, or they lie between the endpoints all the same. |
| LabelLayout.EstimateLineCount | packages/canvas-core/src/canvas-lib/WorkflowCanvasLabelLayoutEstimator.ts:11-41 | For every width and font size, the loop computes the wrap of the words, clamped to between 1 and 80 lines. |
| LabelLayout.DegenerateWidth | packages/canvas-core/src/canvas-lib/WorkflowCanvasLabelLayoutEstimator.ts:19-40 | With a width of zero a visible text gets 80 lines, and with a negative width one. |
| LabelLayout.LinesHoldTheWords | packages/canvas-core/src/canvas-lib/WorkflowCanvasLabelLayoutEstimator.ts:16-39 | The lines have room for all words, except one maximal width per overlong word that fills its lines exactly. |
| LabelLayout.EstimateIsLeast | packages/canvas-core/src/canvas-lib/WorkflowCanvasLabelLayoutEstimator.ts:19-39 | Before the cap, the estimate is the least number of lines over all layouts that keep every whole word within the width. |
| LabelLayout.EstimateIsLeastUpToCap | packages/canvas-core/src/canvas-lib/WorkflowCanvasLabelLayoutEstimator.ts:11-41 | The estimate itself is the least number of lines of any such layout, or the cap if every layout needs more. |
| LabelLayout.AppendingNeverLowers | packages/canvas-core/src/canvas-lib/WorkflowCanvasLabelLayoutEstimator.ts:21-40 | Appending a word never lowers the estimate. |
| IdleTimer.IdleCyclesAlternate | packages/canvas-core/src/realtime/PageVisibilityIdleTimer.ts:36-84 | In every session without harmful repeated events the callbacks take turns, onIdle comes while the tab is hidden and onActive while it is visible, and the one live timeout is the recorded one. |
| IdleTimer.AlternatingRunsAreCalm | packages/canvas-core/src/realtime/PageVisibilityIdleTimer.ts:63-83 | When hidden and visible take turns, no event is harmful. |
| IdleTimer.RepeatedEventHarms | packages/canvas-core/src/realtime/PageVisibilityIdleTimer.ts:63-83 | A repeated event leads to callbacks out of turn exactly when the tab is hidden and the session's timeout is pending or has fired. |
| IdleTimer.IdleFollowsHiddenTime | packages/canvas-core/src/realtime/PageVisibilityIdleTimer.ts:63-83 | Whenever onIdle is called, the tab was hidden in every state of a stretch of the run that lasted the idle time. |
| IdleTimer.HiddenTabGoesIdle | packages/canvas-core/src/realtime/PageVisibilityIdleTimer.ts:63-83 | In a session, a tab that stays hidden for the idle time goes idle: its timeout can fire, and calls onIdle. |
| IdleTimer.ShownTabGoesActive | packages/canvas-core/src/realtime/PageVisibilityIdleTimer.ts:63-83 | A tab shown again goes active exactly if it had gone idle, and no timeout is left. |
| IdleTimer.StoppedStaysSilent | packages/canvas-core/src/realtime/PageVisibilityIdleTimer.ts:52-61 | Nothing fires between a stop and the next start. |
| IdleTimer.NothingAfterStop | packages/canvas-core/src/realtime/PageVisibilityIdleTimer.ts:52-61 | From a stop on nothing is called in any run without a start. |
| IdleTimer.PageVisibilityIdleTimer.OnVisibilityEvent | packages/canvas-core/src/realtime/PageVisibilityIdleTimer.ts:63-83 | The listener's branches are the step of the theorems, for changed and repeated visibility. |
| PrettyTree.KeysIdentifyNodesExactly | packages/canvas/src/panels/WorkflowInspectorPrettyTreePresenter.tsx:7-88 | All keys of the tree are different exactly when no two entries of one object or array spell the same dotted text. |
| PrettyTree.UnrelatedNamesIdentifyNodes | packages/canvas/src/panels/WorkflowInspectorPrettyTreePresenter.tsx:7-88 | They are if no name of an object continues another one after a dot. |
| PrettyTree.KeysIdentifyNodes | packages/canvas/src/panels/WorkflowInspectorPrettyTreePresenter.tsx:7-88 | For every value whose names have no dots, all keys of the tree are different. |
| PrettyTree.DotsMakeKeysClash | packages/canvas/src/panels/WorkflowInspectorPrettyTreePresenter.tsx:61-64 | A value with two nodes of one key. |
| PrettyTree.CollectKeys | packages/canvas/src/panels/WorkflowInspectorPrettyTreePresenter.tsx:27-41 | The collected keys are those of the nodes with children, in pre-order. |
| PrettyTree.TreeShowsValue | packages/canvas/src/panels/WorkflowInspectorPrettyTreePresenter.tsx:7-88 | The tree mirrors the value: a node for every entry in order, captioned with its name or its index in brackets, with what is shown of it inline. |
| PrettyTree.DecimalReadsBack | packages/canvas/src/panels/WorkflowInspectorPrettyTreePresenter.tsx:45 | Reading the digits of an index back gives the index. |
| JwksCache.ImportKeys | packages/managed-auth/src/JwksCache.ts:71-81 | For every key id the map holds the last importable key with that id. |
| JwksCache.LastKeyIsLast | packages/managed-auth/src/JwksCache.ts:71-81 | A key is looked up from the last importable entry with its id, and is absent exactly when the id is empty or no such entry is there. |
| JwksCache.AnswersAreJustified | packages/managed-auth/src/JwksCache.ts:46-91 | Under every interleaving: where an answer comes from; an absent key was missed in one set and then is absent from a set that this call fetched after it; and at most two fetches per call. |
| JwksCache.UnexpiredHitFetchesNothing | packages/managed-auth/src/JwksCache.ts:46-63 | Under every interleaving: a call fetches nothing exactly when the set fetched last is unexpired and has its key as the call begins, and then it gets that key. |
| JwksCache.FetchesDecide | packages/managed-auth/src/JwksCache.ts:46-91 | A call that has to fetch is answered, whatever other calls do meanwhile: by its first fetch if that has the key, and otherwise by its second, with the key or without. |
| JwksCache.Cache.BeginGetKey | packages/managed-auth/src/JwksCache.ts:46-63 | A call is answered at once exactly when the stored set is unexpired and has the key. |
| JwksCache.Cache.EndRefresh | packages/managed-auth/src/JwksCache.ts:65-91 | A finished refresh is stored whatever was stored meanwhile, and then looked up. |
| RoomTracker.RoomIsTracked | packages/canvas-core/src/realtime/RunRoomSubscriptionTracker.ts:25-49 | Over every history: counts are the room's retains and releases folded with floor zero, and its callbacks alternate, activation first. |
| RoomTracker.ActiveRoomsInOrder | packages/canvas-core/src/realtime/RunRoomSubscriptionTracker.ts:51-54 | The listed rooms are the active ones, each once, in the order of their latest activation. |
| RoomTracker.RunRoomSubscriptionTracker.RetainRoom | packages/canvas-core/src/realtime/RunRoomSubscriptionTracker.ts:25-33 | A retain reports the transition from no subscriber. |
| RoomTracker.RunRoomSubscriptionTracker.ReleaseRoom | packages/canvas-core/src/realtime/RunRoomSubscriptionTracker.ts:37-49 | A release reports the transition to no subscriber and the subscribers that remain. |

## Left out

- ImportSpecifiers.RewrittenImportFindsOutput: specifiers are lists of non-empty segments, so `//` and a trailing `/` are not covered; neither is the regular-expression scan that finds specifiers in emitted text, which skips a bare `..` and would expand `$$` and the like in a rewritten specifier.
- IncrementalBuild.IncrementalEqualsFull: transpilation and workflow discovery are uninterpreted functions of a file's path and text, and of the config text and the existing paths; a source map is written exactly when the option is set.
- IncrementalBuild.BuildInternalFull: a config file outside the project root, which the code emits outside of `app`, counts as missing here; failures of file operations come in with the watch loop.
- IncrementalBuild.BuildInternalIncremental: the same for a config file outside the project root.
- EmittedLinks.EmittedImportsLink: about importing sources that do not share their output file with another source.
- WatchCoherence.QuiescentTreeIsFullBuild: files outside the watched tree do not change, and every change is delivered later as an event; after a failed promotion that changed the tree, nothing is claimed until a full build succeeds.
- WatchLoop.ScheduleOverRuns: `disposeWatching` while a loop runs, and an `ensureBuilt` in flight next to the loop, are not steps of the model; `onBuildStarted` returns a promise: if it threw synchronously in the first iteration of a loop, the code would keep the rejected loop promise and start no loop again.
- DevRebuildQueue.NoRequestIsLost: the handler's `run` returns a promise, with the same consequence if it threw synchronously.
- OutputBuilder.ConsumerOutputBuilder.BuildInternal: one call reads one view of the file system; builds during which paths come or go may promote anything in the loop's model.
- RunCaches.CachesAgree: the finish time in a summary comes from a helper that is not part of this model; start times are numbers, and empty run ids are ignored as in the source.
- RunReducer.ReduceWorkflowEvent: fields that are only copied are one text field; run-level status, outputs and invocations are not monotonic in the code, and nothing of the kind is claimed.
- DevSession.SessionSettles: session steps are atomic, apart from the await of the UI restart, and the proxy's setters do not fail; of UI processes and signals only their effect on the session is modelled.
- EdgePaths.BendStaysOnItsSegments: polylines are axis-aligned, which is what the planner is for, and arithmetic is over reals.
- LabelLayout.LinesHoldTheWords: the maximal width and the width of a character are positive, and sums of equal widths are written as repeated addition.
- IdleTimer.IdleCyclesAlternate: visibility events are as browsers send them, or repeated where RepeatedEventHarms allows it; callbacks that start or stop the timer themselves are not covered.
- JwksCache.AnswersAreJustified: key import is part of the fetched data, and lifetime and jitter are one non-negative number.
- PrettyTree.KeysIdentifyNodes: rendering of inline values is left out.
- Telemetry mutations, React panels, the Redis bus, JWT verification and CLI data commands: thin or easy next to the above.

/**
 The builder object: its fields, and its methods cut at their awaits. Each method is the corresponding step of the
 scheduler in WatchLoop, and a build is one of the outcomes that WatchLoop allows.
 */
module OutputBuilder {
  import opened Wrappers
  import opened SourcePaths
  import opened ConsumerBuild
  import opened IncrementalBuild
  import opened WatchLoop

  class ConsumerOutputBuilder {
    const pr: Project
    const handlers: Handlers

    var pendingWatchEvents: seq<FileEvent>
    var watchBuildDebounceTimeout: bool
    var hasQueuedWatchEvent: bool
    var hasPendingWatchBuild: bool
    var watchBuildLoopPromise: bool
    /** The flush loops that are running, each at one of its awaits or at its head. */
    var loops: seq<Phase>
    /** Whether a snapshot has been recorded; what it points to is the tree on disk. */
    var lastPromotedSnapshot: bool
    var emitted: Option<Tree>
    var lastIssuedBuildVersion: nat

    constructor (pr: Project, handlers: Handlers)
      ensures this.pr == pr && this.handlers == handlers
      ensures Fields() == IDLE && !lastPromotedSnapshot && emitted == None
    {
      this.pr, this.handlers := pr, handlers;
      pendingWatchEvents, loops := [], [];
      watchBuildDebounceTimeout, hasQueuedWatchEvent := false, false;
      hasPendingWatchBuild, watchBuildLoopPromise := false, false;
      lastPromotedSnapshot, emitted, lastIssuedBuildVersion := false, None, 0;
    }

    function Fields(): Scheduler
      reads this
    {
      Scheduler(pendingWatchEvents, watchBuildDebounceTimeout, hasQueuedWatchEvent, hasPendingWatchBuild,
                watchBuildLoopPromise, loops)
    }

    /** The watcher's listener; an event without a path only schedules. */
    method OnWatchEvent(e: Option<FileEvent>)
      modifies `pendingWatchEvents, `hasQueuedWatchEvent, `watchBuildDebounceTimeout
      ensures Fields() == OnEvent(old(Fields()), e)
    {
      if e.Some? {
        pendingWatchEvents := pendingWatchEvents + [e.value];
      }
      ScheduleWatchBuild();
    }

    method ScheduleWatchBuild()
      modifies `hasQueuedWatchEvent, `watchBuildDebounceTimeout
      ensures Fields() == OnEvent(old(Fields()), None)
    {
      hasQueuedWatchEvent := true;
      if watchBuildDebounceTimeout {
        watchBuildDebounceTimeout := false;
      }
      watchBuildDebounceTimeout := true;
    }

    method OnDebounceElapsed()
      modifies this
      ensures Fields() == OnTimer(old(Fields()))
      ensures unchanged(`lastPromotedSnapshot) && unchanged(`emitted) && unchanged(`lastIssuedBuildVersion)
    {
      watchBuildDebounceTimeout := false;
      hasQueuedWatchEvent := false;
      hasPendingWatchBuild := true;
      if !watchBuildLoopPromise {
        watchBuildLoopPromise := true;
        loops := loops + [AtHead];
      }
    }

    method TakePendingWatchEvents() returns (events: seq<FileEvent>)
      modifies `pendingWatchEvents
      ensures events == old(pendingWatchEvents) && pendingWatchEvents == []
    {
      events := pendingWatchEvents;
      pendingWatchEvents := [];
    }

    /** The test of the loop, up to its next await or its end. */
    method RunFromHead(i: nat)
      requires i < |loops|
      modifies this
      ensures Fields() == OnHead(handlers, old(Fields()), i)
      ensures unchanged(`lastPromotedSnapshot) && unchanged(`emitted) && unchanged(`lastIssuedBuildVersion)
    {
      if !hasPendingWatchBuild {
        LeaveLoop(i);
        return;
      }
      hasPendingWatchBuild := false;
      if handlers.onStarted {
        loops := loops[i := Starting];
      } else {
        BeginBuild(i);
      }
    }

    method BeginBuild(i: nat)
      requires i < |loops|
      modifies `pendingWatchEvents, `loops
      ensures Fields() == Take(old(Fields()), i)
    {
      var events := TakePendingWatchEvents();
      loops := loops[i := Building(events)];
    }

    /** The `finally` block: the loop ends, or starts over when a build became pending. */
    method LeaveLoop(i: nat)
      requires i < |loops|
      modifies `watchBuildLoopPromise, `loops
      ensures Fields() == OnLeave(old(Fields()), i)
    {
      watchBuildLoopPromise := false;
      var rest := loops[..i] + loops[i + 1..];
      if hasPendingWatchBuild {
        watchBuildLoopPromise := true;
        loops := loops[i := AtHead];
      } else {
        loops := rest;
      }
    }

    /** The `catch` block: a failure is reported only when no newer event is waiting to be built. */
    method OnBuildError(i: nat)
      requires i < |loops|
      modifies `loops
      ensures Fields() == OnError(handlers, old(Fields()), i)
    {
      if handlers.onFailed && !hasPendingWatchBuild && !hasQueuedWatchEvent {
        loops := loops[i := Failing];
      } else {
        loops := loops[i := AtHead];
      }
    }

    /** A build has been promoted, and its completion is being reported. */
    method OnBuildPromoted(i: nat)
      requires i < |loops|
      modifies `loops
      ensures Fields() == old(Fields()).(loops := old(loops)[i := Completing])
    {
      loops := loops[i := Completing];
    }

    /** A completion or failure has been reported: back to the head of the loop. */
    method OnReported(i: nat)
      requires i < |loops|
      modifies `loops
      ensures Fields() == old(Fields()).(loops := old(loops)[i := AtHead])
    {
      loops := loops[i := AtHead];
    }

    /** Versions increase strictly, whatever the clock says. */
    method CreateBuildVersion(now: nat) returns (version: nat)
      modifies `lastIssuedBuildVersion
      ensures version == lastIssuedBuildVersion && version > old(lastIssuedBuildVersion) && version >= now
      ensures version == now || version == old(lastIssuedBuildVersion) + 1
    {
      version := if now > lastIssuedBuildVersion + 1 then now else lastIssuedBuildVersion + 1;
      lastIssuedBuildVersion := version;
    }

    /**
     One build of `view`. The flags say whether the file operations of an attempt succeed; `left` is what a failed
     promotion leaves on disk. In any state `s` of the watch loop that has this builder's snapshot and tree, the outcome
     is one that the loop allows.
     */
    method BuildInternal(view: FileSystem, sources: seq<Path>, watchEvents: seq<FileEvent>, now: nat,
                         incrementalWorks: bool, fullWorks: bool, left: Option<Tree>, ghost s: State)
      returns (outcome: Outcome)
      requires Enumerates(sources, Sources(pr, view))
      modifies `lastPromotedSnapshot, `emitted, `lastIssuedBuildVersion
      ensures outcome.Incremental? <==>
        && ChoosesIncremental(pr, old(lastPromotedSnapshot), old(emitted), watchEvents, view)
        && HasConfig(pr, view) && Emittable(watchEvents) <= Sources(pr, view) && incrementalWorks
      ensures !outcome.Incremental? ==>
        if HasConfig(pr, view) && fullWorks then outcome.Full? else outcome == Failed(left)
      ensures outcome.Incremental? ==>
        && outcome.view == view && Enumerates(outcome.changed, Emittable(watchEvents))
        && (forall p :: p in outcome.changed ==> p in Sources(pr, view))
        && outcome.version == lastIssuedBuildVersion > old(lastIssuedBuildVersion)
        && emitted == Some(IncrementalTree(pr, view, old(emitted).value, outcome.changed, outcome.version))
        && lastPromotedSnapshot
      ensures outcome.Full? ==>
        && outcome.view == view && outcome.sources == sources
        && outcome.version == lastIssuedBuildVersion > old(lastIssuedBuildVersion)
        && emitted == Some(FullTree(pr, view, sources, outcome.version))
        && lastPromotedSnapshot
      ensures outcome.Failed? ==> emitted == left && lastPromotedSnapshot == old(lastPromotedSnapshot)
      ensures
        && s.snapshot == old(lastPromotedSnapshot) && s.tree == old(emitted)
        && !s.reshaped && AgreeExcept(view, s.fs, s.touched)
        ==> Allowed(pr, s, watchEvents, outcome)
    {
      outcome := TryIncremental(view, watchEvents, now, incrementalWorks);
      if outcome.Incremental? { return; }
      var version := CreateBuildVersion(now);
      var tree := BuildInternalFull(pr, view, sources, version);
      if tree.None? || !fullWorks {
        emitted := left;
        return Failed(left);
      }
      lastPromotedSnapshot, emitted := true, tree;
      return Full(view, sources, version);
    }

    /** The incremental attempt; any outcome but `Incremental` means that a full build has to follow. */
    method TryIncremental(view: FileSystem, watchEvents: seq<FileEvent>, now: nat, works: bool)
      returns (outcome: Outcome)
      modifies `lastPromotedSnapshot, `emitted, `lastIssuedBuildVersion
      ensures outcome.Incremental? <==>
        && ChoosesIncremental(pr, old(lastPromotedSnapshot), old(emitted), watchEvents, view)
        && HasConfig(pr, view) && Emittable(watchEvents) <= Sources(pr, view) && works
      ensures outcome.Incremental? ==>
        && outcome.view == view && Enumerates(outcome.changed, Emittable(watchEvents))
        && (forall p :: p in outcome.changed ==> p in Sources(pr, view))
        && outcome.version == lastIssuedBuildVersion > old(lastIssuedBuildVersion)
        && emitted == Some(IncrementalTree(pr, view, old(emitted).value, outcome.changed, outcome.version))
        && lastPromotedSnapshot
      ensures !outcome.Incremental? ==>
        && lastPromotedSnapshot == old(lastPromotedSnapshot) && emitted == old(emitted)
        && lastIssuedBuildVersion >= old(lastIssuedBuildVersion)
    {
      outcome := Failed(emitted);
      var config := ConfigPath(pr, view);
      if watchEvents == [] || !lastPromotedSnapshot || config.None? { return; }
      var full := RequiresFullConsumerRebuild(watchEvents, config.value);
      if full { return; }
      var changed := ResolveIncrementalEmitSourcePaths(watchEvents);
      EmittableIsEmpty(watchEvents, changed, config);
      if changed == [] || emitted.None? { return; }
      var version := CreateBuildVersion(now);
      var tree := BuildInternalIncremental(pr, view, emitted.value, changed, version);
      if tree.Some? && works {
        lastPromotedSnapshot, emitted := true, tree;
        outcome := Incremental(view, changed, version);
      }
    }
  }

  lemma EmittableIsEmpty(events: seq<FileEvent>, changed: seq<Path>, config: Option<Path>)
    requires forall e :: e in events ==> !Structural(e, config)
    requires (forall e :: e in events ==> e.kind == Change && !IsAsset(BaseName(e.path))) ==>
      Enumerates(changed, Emittable(events))
    ensures Enumerates(changed, Emittable(events)) && (changed == [] <==> Emittable(events) == {})
  {
    assert forall e :: e in events ==> !Structural(e, config) ==> e.kind == Change && !IsAsset(BaseName(e.path));
    if changed != [] {
      assert changed[0] in Emittable(events);
    }
  }
}

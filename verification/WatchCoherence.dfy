/**
 The promoted tree against the sources, over every run of the watch loop: whatever in the tree is out of date has an
 event that is undelivered, queued, in the batch being built, or lost with a failed build.
 */
module WatchCoherence {
  import opened Wrappers
  import opened SourcePaths
  import opened ConsumerBuild
  import opened IncrementalBuild
  import opened WatchLoop

  /** Events that no build has taken yet. */
  function Outstanding(s: State): set<FileEvent> {
    s.undelivered + AsSet(s.sched.pendingEvents)
  }

  /** The batch of the build in flight. */
  function InBuild(s: State): set<FileEvent> {
    if |s.sched.loops| == 1 && s.sched.loops[0].Building? then AsSet(s.sched.loops[0].batch) else {}
  }

  function Paths(events: set<FileEvent>): set<Path> {
    set e | e in events :: e.path
  }

  predicate AnyStructural(pr: Project, fs: FileSystem, events: set<FileEvent>) {
    exists e :: e in events && Structural(e, ConfigPath(pr, fs))
  }

  /** The tree is the full build except where `events` say otherwise. */
  predicate UpToDateExcept(pr: Project, fs: FileSystem, tree: Option<Tree>, events: set<FileEvent>) {
    || AnyStructural(pr, fs, events)
    || (tree.Some? && BuiltExcept(pr, fs, tree.value, Paths(events) + Shared(pr, fs)))
  }

  /** The events that the promoted tree may not show: not taken yet, being built, or lost with a failed build. */
  function Unbuilt(s: State): set<FileEvent> {
    Outstanding(s) + InBuild(s) + s.lost
  }

  /** The config has not changed while the build ran, and every path that has changed has an event. */
  predicate TouchedAmong(pr: Project, s: State, events: set<FileEvent>) {
    s.touched <= Paths(events) && (ConfigPath(pr, s.fs).Some? ==> ConfigPath(pr, s.fs).value !in s.touched)
  }

  /** What changed since the batch was taken still has its event outstanding. */
  predicate TouchedIsOutstanding(pr: Project, s: State) {
    InBuildPhase(s) ==>
      if s.reshaped then AnyStructural(pr, s.fs, Outstanding(s))
      else TouchedAmong(pr, s, Outstanding(s))
  }

  predicate InBuildPhase(s: State) {
    |s.sched.loops| == 1 && s.sched.loops[0].Building?
  }

  predicate Coherent(pr: Project, s: State) {
    && Scheduled(s.sched)
    && TouchedIsOutstanding(pr, s)
    && (s.snapshot && !s.damaged ==> UpToDateExcept(pr, s.fs, s.tree, Unbuilt(s)))
  }

  // ---------------------------------------------------------------- steps that leave the file system alone

  lemma AsSetOfAppend<T>(s: seq<T>, x: T)
    ensures AsSet(s + [x]) == AsSet(s) + {x}
  {
  }

  predicate Quiet(step: Step) {
    !step.EditFile? && !step.Reshape? && !step.Built?
  }

  predicate KeepsEvents(s: State, t: State) {
    && t.fs == s.fs && t.tree == s.tree && t.snapshot == s.snapshot && t.lost == s.lost && t.damaged == s.damaged
    && Outstanding(t) + InBuild(t) == Outstanding(s) + InBuild(s)
    && (InBuildPhase(t) ==>
          if InBuildPhase(s) then t.touched == s.touched && t.reshaped == s.reshaped && Outstanding(t) == Outstanding(s)
          else t.touched == {} && !t.reshaped)
  }

  lemma DeliveryKeepsEvents(pr: Project, h: Handlers, s: State, step: Step)
    requires Enabled(pr, s, step) && (step.Deliver? || step.DeliverNameless? || step.TimerFires?) && Scheduled(s.sched)
    ensures KeepsEvents(s, Next(pr, h, s, step))
  {
    if step.Deliver? {
      AsSetOfAppend(s.sched.pendingEvents, step.event);
      assert Outstanding(Next(pr, h, s, step)) == Outstanding(s);
    }
  }

  lemma TakingKeepsEvents(pr: Project, h: Handlers, s: State, step: Step)
    requires Scheduled(s.sched) && Enabled(pr, s, step)
    requires step.Started? || (step.Head? && s.sched.pendingBuild && !h.onStarted)
    ensures KeepsEvents(s, Next(pr, h, s, step))
  {
    OneLoop(s.sched);
    var t := Next(pr, h, s, step);
    assert t.sched.loops == [Building(s.sched.pendingEvents)];
    assert Outstanding(t) == s.undelivered + {} && InBuild(t) == AsSet(s.sched.pendingEvents);
  }

  lemma MovingKeepsEvents(pr: Project, h: Handlers, s: State, step: Step)
    requires Scheduled(s.sched) && Enabled(pr, s, step)
    requires step.StartRejected? || step.Notified? || step.CompletionRejected? || step.FailureRejected?
             || (step.Head? && !(s.sched.pendingBuild && !h.onStarted))
    ensures KeepsEvents(s, Next(pr, h, s, step))
  {
    OneLoop(s.sched);
    var t := Next(pr, h, s, step);
    assert !InBuildPhase(s) && !InBuildPhase(t);
    assert Outstanding(t) == Outstanding(s);
  }

  /** Delivering events and moving a loop along changes neither the tree nor the events that are not yet built. */
  lemma QuietStepKeepsEvents(pr: Project, h: Handlers, s: State, step: Step)
    requires Scheduled(s.sched) && Enabled(pr, s, step) && Quiet(step)
    ensures KeepsEvents(s, Next(pr, h, s, step))
  {
    if step.Deliver? || step.DeliverNameless? || step.TimerFires? {
      DeliveryKeepsEvents(pr, h, s, step);
    } else if step.Started? || (step.Head? && s.sched.pendingBuild && !h.onStarted) {
      TakingKeepsEvents(pr, h, s, step);
    } else {
      MovingKeepsEvents(pr, h, s, step);
    }
  }

  lemma QuietStepIsCoherent(pr: Project, h: Handlers, s: State, step: Step)
    requires Coherent(pr, s) && Enabled(pr, s, step) && Quiet(step)
    ensures Coherent(pr, Next(pr, h, s, step))
  {
    StepKeepsSchedule(pr, h, s, step);
    QuietStepKeepsEvents(pr, h, s, step);
    assert Unbuilt(Next(pr, h, s, step)) == Unbuilt(s);
  }

  // ---------------------------------------------------------------- changes of the file system

  lemma EditKeepsUpToDate(
    pr: Project, fs: FileSystem, tree: Option<Tree>, events: set<FileEvent>, p: Path, text: string,
    more: set<FileEvent>)
    requires p in fs.files && UpToDateExcept(pr, fs, tree, events) && more == events + {FileEvent(Change, p)}
    ensures UpToDateExcept(pr, fs.(files := fs.files[p := text]), tree, more)
  {
    var e, g := FileEvent(Change, p), fs.(files := fs.files[p := text]);
    assert g.Paths() == fs.Paths() && e in more;
    if AnyStructural(pr, fs, more) {
      var x :| x in more && Structural(x, ConfigPath(pr, fs));
      assert Structural(x, ConfigPath(pr, g));
    } else {
      assert !AnyStructural(pr, fs, events) by {
        assert forall x :: x in events ==> x in more;
      }
      assert !Structural(e, ConfigPath(pr, fs));
      BuiltForSimilar(pr, fs, g, tree.value, Paths(events) + Shared(pr, fs), {p});
      SameShared(pr, fs, g, {p});
      assert Paths(events) + Shared(pr, fs) + {p} == Paths(more) + Shared(pr, g);
    }
  }

  lemma EditIsCoherent(pr: Project, h: Handlers, s: State, p: Path, text: string)
    requires Coherent(pr, s) && Enabled(pr, s, EditFile(p, text))
    ensures Coherent(pr, Next(pr, h, s, EditFile(p, text)))
  {
    var e, t := FileEvent(Change, p), Next(pr, h, s, EditFile(p, text));
    assert t.fs.Paths() == s.fs.Paths();
    assert Outstanding(t) == Outstanding(s) + {e};
    assert e in Outstanding(t) && p in Paths(Outstanding(t));
    if InBuildPhase(s) {
      if s.reshaped {
        var x :| x in Outstanding(s) && Structural(x, ConfigPath(pr, s.fs));
        assert x in Outstanding(t) && Structural(x, ConfigPath(pr, t.fs));
      } else if t.reshaped {
        assert Structural(e, ConfigPath(pr, t.fs));
      } else {
        assert Paths(Outstanding(s)) <= Paths(Outstanding(t));
      }
    }
    if s.snapshot && !s.damaged {
      EditKeepsUpToDate(pr, s.fs, s.tree, Unbuilt(s), p, text, Unbuilt(t));
    }
  }

  lemma ReshapeIsCoherent(pr: Project, h: Handlers, s: State, fs: FileSystem, e: FileEvent)
    requires Coherent(pr, s) && Enabled(pr, s, Reshape(fs, e))
    ensures Coherent(pr, Next(pr, h, s, Reshape(fs, e)))
  {
    var t := Next(pr, h, s, Reshape(fs, e));
    assert e in Outstanding(t) && Structural(e, ConfigPath(pr, t.fs));
    assert AnyStructural(pr, t.fs, Outstanding(t));
    assert e in Unbuilt(t);
  }

  // ---------------------------------------------------------------- builds

  /** What a full build of `view` leaves out of date is what was touched while it ran. */
  lemma FullIsUpToDate(pr: Project, s: State, view: FileSystem, sources: seq<Path>, version: int)
    requires HasConfig(pr, view) && AgreeExcept(view, s.fs, s.touched) && Enumerates(sources, Sources(pr, view))
    requires TouchedAmong(pr, s, Outstanding(s))
    ensures UpToDateExcept(pr, s.fs, Some(FullTree(pr, view, sources, version)), Outstanding(s))
  {
    SameShared(pr, view, s.fs, s.touched);
    FullTreeIsFullBuild(pr, view, sources, version);
    var tree := FullTree(pr, view, sources, version);
    BuiltForSimilar(pr, view, s.fs, tree, Shared(pr, view), s.touched);
    DirtyGrows(pr, s.fs, tree, Shared(pr, view) + s.touched, Paths(Outstanding(s)) + Shared(pr, s.fs));
  }

  /** An incremental build takes care of the paths of its batch, and of earlier lost changes of these paths. */
  lemma IncrementalIsUpToDate(
    pr: Project, s: State, batch: seq<FileEvent>, view: FileSystem, changed: seq<Path>, version: int)
    requires ChoosesIncremental(pr, s.snapshot, s.tree, batch, view) && AgreeExcept(view, s.fs, s.touched)
    requires Enumerates(changed, Emittable(batch)) && HasConfig(pr, view)
    requires forall p :: p in changed ==> p in Sources(pr, view)
    requires TouchedAmong(pr, s, Outstanding(s))
    requires UpToDateExcept(pr, s.fs, s.tree, Outstanding(s) + AsSet(batch) + s.lost)
    ensures UpToDateExcept(pr, s.fs, Some(IncrementalTree(pr, view, s.tree.value, changed, version)),
                           Outstanding(s) + Unrepaired(s.lost, changed))
  {
    SameShared(pr, view, s.fs, s.touched);
    var events, left := Outstanding(s) + AsSet(batch) + s.lost, Outstanding(s) + Unrepaired(s.lost, changed);
    if AnyStructural(pr, s.fs, events) {
      StructuralStays(pr, s.fs, batch, changed, events, left, s.lost);
    } else {
      var tree := IncrementalTree(pr, view, s.tree.value, changed, version);
      var d1 := Paths(events) + Shared(pr, view) + s.touched;
      var d2 := d1 - Members(changed) + Shared(pr, view);
      BuiltForSimilar(pr, s.fs, view, s.tree.value, Paths(events) + Shared(pr, view), s.touched);
      IncrementalStep(pr, view, s.tree.value, d1, changed, version);
      BuiltForSimilar(pr, view, s.fs, tree, d2, s.touched);
      forall p | p in d2 + s.touched && p in Units(pr, s.fs) ensures p in Paths(left) + Shared(pr, s.fs) {
        if p !in Shared(pr, s.fs) && p !in s.touched {
          StillUnbuilt(pr, view, batch, changed, events, left, s.lost, p);
        }
      }
      DirtyGrows(pr, s.fs, tree, d2 + s.touched, Paths(left) + Shared(pr, s.fs));
    }
  }

  /** The incremental path is not taken for structural events, and does not make up for lost ones. */
  lemma StructuralStays(
    pr: Project, fs: FileSystem, batch: seq<FileEvent>, changed: seq<Path>,
    events: set<FileEvent>, left: set<FileEvent>, lost: set<FileEvent>)
    requires (forall e :: e in batch ==> !Structural(e, ConfigPath(pr, fs))) && Enumerates(changed, Emittable(batch))
    requires forall e :: e in events ==> e in batch || e in left || e in lost
    requires Unrepaired(lost, changed) <= left && AnyStructural(pr, fs, events)
    ensures AnyStructural(pr, fs, left)
  {
    var e :| e in events && Structural(e, ConfigPath(pr, fs));
    if e in lost && e.kind == Change {
      forall x | x in batch ensures x.path != e.path {
        assert !Structural(x, ConfigPath(pr, fs));
      }
    }
    assert e in left;
  }

  lemma StillUnbuilt(
    pr: Project, fs: FileSystem, batch: seq<FileEvent>, changed: seq<Path>,
    events: set<FileEvent>, left: set<FileEvent>, lost: set<FileEvent>, p: Path)
    requires HasConfig(pr, fs) && p in Units(pr, fs) && p in Paths(events) && p !in changed
    requires (forall e :: e in batch ==> !Structural(e, ConfigPath(pr, fs))) && Enumerates(changed, Emittable(batch))
    requires forall e :: e in events ==> e in batch || e in left || e in lost
    requires Unrepaired(lost, changed) <= left
    ensures p in Paths(left)
  {
    var e :| e in events && e.path == p;
    if e in batch {
      BatchUnitIsEmitted(pr, fs, batch, p);
    }
    assert e in left;
  }

  lemma BatchUnitIsEmitted(pr: Project, fs: FileSystem, batch: seq<FileEvent>, p: Path)
    requires HasConfig(pr, fs) && p in Units(pr, fs) && p in Paths(AsSet(batch))
    requires forall e :: e in batch ==> !Structural(e, ConfigPath(pr, fs))
    ensures p in Emittable(batch)
  {
    var e :| e in batch && e.path == p;
    assert !Structural(e, ConfigPath(pr, fs));
    assert p in Sources(pr, fs);
  }

  /** After a build, everything that is not built is outstanding or lost. */
  lemma AfterBuildUnbuilt(pr: Project, h: Handlers, s: State, i: nat, o: Outcome)
    requires Scheduled(s.sched) && Enabled(pr, s, Built(i, o))
    ensures var t := Next(pr, h, s, Built(i, o));
      && !InBuildPhase(t) && Outstanding(t) == Outstanding(s) && Unbuilt(t) == Outstanding(s) + t.lost
    ensures i == 0 && InBuild(s) == AsSet(s.sched.loops[0].batch)
  {
    OneLoop(s.sched);
    BuildEnds(pr, h, s, i, o);
  }

  lemma BuildEnds(pr: Project, h: Handlers, s: State, i: nat, o: Outcome)
    requires Scheduled(s.sched) && Enabled(pr, s, Built(i, o))
    ensures var t := Next(pr, h, s, Built(i, o));
      && t.undelivered == s.undelivered && t.sched.pendingEvents == s.sched.pendingEvents
      && |t.sched.loops| == 1 && !t.sched.loops[0].Building?
  {
  }

  lemma FailedBuildIsCoherent(pr: Project, h: Handlers, s: State, i: nat, left: Option<Tree>)
    requires Coherent(pr, s) && Enabled(pr, s, Built(i, Failed(left)))
    ensures Coherent(pr, Next(pr, h, s, Built(i, Failed(left))))
  {
    StepKeepsSchedule(pr, h, s, Built(i, Failed(left)));
    AfterBuildUnbuilt(pr, h, s, i, Failed(left));
    assert Unbuilt(Next(pr, h, s, Built(i, Failed(left)))) == Unbuilt(s);
  }

  lemma FullBuildIsCoherent(pr: Project, h: Handlers, s: State, i: nat, o: Outcome)
    requires Coherent(pr, s) && Enabled(pr, s, Built(i, o)) && o.Full?
    ensures Coherent(pr, Next(pr, h, s, Built(i, o)))
  {
    StepKeepsSchedule(pr, h, s, Built(i, o));
    AfterBuildUnbuilt(pr, h, s, i, o);
    FullIsUpToDate(pr, s, o.view, o.sources, o.version);
    assert Unbuilt(Next(pr, h, s, Built(i, o))) == Outstanding(s);
  }

  lemma IncrementalBuildIsCoherent(pr: Project, h: Handlers, s: State, i: nat, o: Outcome)
    requires Coherent(pr, s) && Enabled(pr, s, Built(i, o)) && o.Incremental?
    ensures Coherent(pr, Next(pr, h, s, Built(i, o)))
  {
    StepKeepsSchedule(pr, h, s, Built(i, o));
    AfterBuildUnbuilt(pr, h, s, i, o);
    if !s.damaged {
      IncrementalIsUpToDate(pr, s, s.sched.loops[0].batch, o.view, o.changed, o.version);
    }
  }

  /** While paths come and go, a structural event is outstanding, and another build will follow. */
  lemma RacedBuildIsCoherent(pr: Project, h: Handlers, s: State, i: nat, o: Outcome)
    requires Coherent(pr, s) && Enabled(pr, s, Built(i, o)) && o.Raced?
    ensures Coherent(pr, Next(pr, h, s, Built(i, o)))
  {
    StepKeepsSchedule(pr, h, s, Built(i, o));
    AfterBuildUnbuilt(pr, h, s, i, o);
    var e :| e in Outstanding(s) && Structural(e, ConfigPath(pr, s.fs));
    assert e in Unbuilt(Next(pr, h, s, Built(i, o)));
  }

  // ---------------------------------------------------------------- whole runs

  lemma StepIsCoherent(pr: Project, h: Handlers, s: State, step: Step)
    requires Coherent(pr, s) && Enabled(pr, s, step)
    ensures Coherent(pr, Next(pr, h, s, step))
  {
    match step
    case EditFile(p, text) => EditIsCoherent(pr, h, s, p, text);
    case Reshape(fs, e) => ReshapeIsCoherent(pr, h, s, fs, e);
    case Built(i, Incremental(_, _, _)) => IncrementalBuildIsCoherent(pr, h, s, i, step.outcome);
    case Built(i, Full(_, _, _)) => FullBuildIsCoherent(pr, h, s, i, step.outcome);
    case Built(i, Raced(_, _)) => RacedBuildIsCoherent(pr, h, s, i, step.outcome);
    case Built(i, Failed(left)) => FailedBuildIsCoherent(pr, h, s, i, left);
    case _ => QuietStepIsCoherent(pr, h, s, step);
  }

  lemma {:induction false} RunIsCoherent(pr: Project, h: Handlers, s: State, steps: seq<Step>)
    requires Coherent(pr, s) && Valid(pr, h, s, steps)
    ensures Coherent(pr, Run(pr, h, s, steps))
    decreases |steps|
  {
    if steps != [] {
      StepIsCoherent(pr, h, s, steps[0]);
      RunIsCoherent(pr, h, Next(pr, h, s, steps[0]), steps[1..]);
    }
  }

  /** Watching begins with no loop running and either nothing built yet or the full build of what is there. */
  predicate Initial(pr: Project, s: State) {
    && s.undelivered == {} && s.sched == IDLE && s.lost == {} && !s.damaged
    && (s.snapshot ==> s.tree.Some? && IsFullBuild(pr, s.fs, s.tree.value))
  }

  lemma InitialIsCoherent(pr: Project, s: State)
    requires Initial(pr, s)
    ensures Coherent(pr, s) && NoLostWakeup(s.sched) && !Stranded(s.sched)
  {
    if s.snapshot {
      assert Unbuilt(s) == {};
      assert Paths({}) + Shared(pr, s.fs) == Shared(pr, s.fs);
    }
  }

  /** All events delivered, no timer armed and no loop running. */
  predicate Quiescent(s: State) {
    s.undelivered == {} && Stopped(s.sched)
  }

  /** Events that never reached a promoted build: stranded by a rejected onBuildStarted, or lost with a failed build. */
  function Missed(s: State): set<FileEvent> {
    AsSet(s.sched.pendingEvents) + s.lost
  }

  /**
   For every run: when the loop has come to rest after a build, the promoted tree is the full build of the current
   sources, up to the paths of missed events, as long as none of these is structural. Without missed events it is the
   full build. Nothing is claimed after a failed promotion that changed the tree, until a full build succeeds. Events
   are left in the queue exactly when a rejected onBuildStarted stranded them and no event came after it.
   */
  lemma QuiescentTreeIsFullBuild(pr: Project, h: Handlers, s: State, steps: seq<Step>)
    requires Initial(pr, s) && Valid(pr, h, s, steps)
    ensures var t := Run(pr, h, s, steps);
      Quiescent(t) && t.snapshot && !t.damaged && !AnyStructural(pr, t.fs, Missed(t)) ==>
        t.tree.Some? && BuiltExcept(pr, t.fs, t.tree.value, Paths(Missed(t)) + Shared(pr, t.fs))
    ensures var t := Run(pr, h, s, steps);
      Quiescent(t) && t.snapshot && !t.damaged && Missed(t) == {} ==>
        t.tree.Some? && IsFullBuild(pr, t.fs, t.tree.value)
    ensures Quiescent(Run(pr, h, s, steps)) ==>
      (Run(pr, h, s, steps).sched.pendingEvents != [] <==>
        exists i :: 0 <= i < |steps| && StrandsForGood(pr, h, s, steps, i))
  {
    InitialIsCoherent(pr, s);
    RunIsCoherent(pr, h, s, steps);
    ScheduleOverRuns(pr, h, s, steps);
    var t := Run(pr, h, s, steps);
    if Quiescent(t) && t.snapshot && !t.damaged {
      RestOf(pr, t);
    }
  }

  lemma RestOf(pr: Project, t: State)
    requires Coherent(pr, t) && Quiescent(t) && t.snapshot && !t.damaged
    ensures UpToDateExcept(pr, t.fs, t.tree, Missed(t))
    ensures Missed(t) == {} ==> t.tree.Some? && IsFullBuild(pr, t.fs, t.tree.value)
  {
    assert Unbuilt(t) == Missed(t);
    assert Paths({}) + Shared(pr, t.fs) == Shared(pr, t.fs);
  }

  predicate Fails(step: Step) {
    step.StartRejected? || (step.Built? && step.outcome.Failed?)
  }

  lemma {:induction false} WithoutFailure(pr: Project, h: Handlers, s: State, steps: seq<Step>)
    requires Valid(pr, h, s, steps) && s.snapshot && s.lost == {} && !s.damaged
    requires forall step :: step in steps ==> !Fails(step)
    ensures var t := Run(pr, h, s, steps); t.snapshot && t.lost == {} && !t.damaged
    decreases |steps|
  {
    if steps != [] {
      assert !Fails(steps[0]);
      WithoutFailure(pr, h, Next(pr, h, s, steps[0]), steps[1..]);
    }
  }

  /** In a run in which no build fails, whatever is edited and whenever: at rest the tree shows the current sources. */
  lemma RestAfterRunWithoutFailure(pr: Project, h: Handlers, s: State, steps: seq<Step>)
    requires Initial(pr, s) && s.snapshot && Valid(pr, h, s, steps) && forall step :: step in steps ==> !Fails(step)
    requires Quiescent(Run(pr, h, s, steps))
    ensures Run(pr, h, s, steps).tree.Some? && IsFullBuild(pr, Run(pr, h, s, steps).fs, Run(pr, h, s, steps).tree.value)
  {
    WithoutFailure(pr, h, s, steps);
    QuiescentTreeIsFullBuild(pr, h, s, steps);
    forall i | 0 <= i < |steps| ensures !StrandsForGood(pr, h, s, steps, i) {
      assert !Fails(steps[i]);
    }
  }

  predicate IsFull(o: Outcome) {
    o.Full? || (o.Raced? && o.full)
  }

  /** Whatever failed before: once a full build has succeeded and nothing has failed since, the same holds. */
  lemma RestAfterFullBuild(
    pr: Project, h: Handlers, s: State, first: seq<Step>, i: nat, o: Outcome, rest: seq<Step>)
    requires Initial(pr, s) && Valid(pr, h, s, first) && IsFull(o) && Enabled(pr, Run(pr, h, s, first), Built(i, o))
    requires var built := Next(pr, h, Run(pr, h, s, first), Built(i, o));
      Valid(pr, h, built, rest) && Quiescent(Run(pr, h, built, rest))
    requires forall step :: step in rest ==> !Fails(step)
    ensures var t := Run(pr, h, Next(pr, h, Run(pr, h, s, first), Built(i, o)), rest);
      t.tree.Some? && IsFullBuild(pr, t.fs, t.tree.value)
  {
    var before := Run(pr, h, s, first);
    var built := Next(pr, h, before, Built(i, o));
    InitialIsCoherent(pr, s);
    RunIsCoherent(pr, h, s, first);
    ScheduleOverRuns(pr, h, s, first);
    StepIsCoherent(pr, h, before, Built(i, o));
    StepStrands(pr, h, before, Built(i, o));
    RunIsCoherent(pr, h, built, rest);
    ScheduleOverRuns(pr, h, built, rest);
    WithoutFailure(pr, h, built, rest);
    forall j | 0 <= j < |rest| ensures !StrandsForGood(pr, h, built, rest, j) {
      assert !Fails(rest[j]);
    }
    RestOf(pr, Run(pr, h, built, rest));
  }

  // ---------------------------------------------------------------- why the two exceptions are needed

  /** A run given by its states. */
  lemma {:induction false} RunOf(pr: Project, h: Handlers, states: seq<State>, steps: seq<Step>)
    requires |states| == |steps| + 1
    requires forall i :: 0 <= i < |steps| ==>
      Enabled(pr, states[i], steps[i]) && states[i + 1] == Next(pr, h, states[i], steps[i])
    ensures Valid(pr, h, states[0], steps) && Run(pr, h, states[0], steps) == states[|steps|]
  {
    if steps != [] {
      RunOf(pr, h, states[1..], steps[1..]);
    }
  }

  lemma ThreeSteps(pr: Project, h: Handlers, s: State, s1: State, s2: State, s3: State, steps: seq<Step>)
    requires |steps| == 3
    requires Enabled(pr, s, steps[0]) && s1 == Next(pr, h, s, steps[0])
    requires Enabled(pr, s1, steps[1]) && s2 == Next(pr, h, s1, steps[1])
    requires Enabled(pr, s2, steps[2]) && s3 == Next(pr, h, s2, steps[2])
    ensures Valid(pr, h, s, steps) && Run(pr, h, s, steps) == s3
  {
    RunOf(pr, h, [s, s1, s2, s3], steps);
  }

  lemma {:induction false} RunThen(pr: Project, h: Handlers, s: State, first: seq<Step>, last: seq<Step>)
    requires Valid(pr, h, s, first) && Valid(pr, h, Run(pr, h, s, first), last)
    ensures Valid(pr, h, s, first + last) && Run(pr, h, s, first + last) == Run(pr, h, Run(pr, h, s, first), last)
    decreases |first|
  {
    if first == [] {
      assert first + last == last;
    } else {
      RunThen(pr, h, Next(pr, h, s, first[0]), first[1..], last);
      assert (first + last)[1..] == first[1..] + last;
    }
  }

  lemma EventReachesStart(pr: Project, s: State, e: FileEvent)
    requires s.sched == IDLE && s.undelivered == {e}
    ensures Valid(pr, Handlers(true, true), s, [Deliver(e), TimerFires, Head(0)])
    ensures Run(pr, Handlers(true, true), s, [Deliver(e), TimerFires, Head(0)]) ==
      s.(undelivered := {}, sched := IDLE.(pendingEvents := [e], loopPromise := true, loops := [Starting]))
  {
    var h := Handlers(true, true);
    var s1 := s.(undelivered := {}, sched := IDLE.(pendingEvents := [e], timerArmed := true, queuedEvent := true));
    var s2 := s1.(sched := IDLE.(pendingEvents := [e], pendingBuild := true, loopPromise := true, loops := [AtHead]));
    var s3 := s1.(sched := IDLE.(pendingEvents := [e], loopPromise := true, loops := [Starting]));
    assert Enabled(pr, s, Deliver(e)) && s1 == Next(pr, h, s, Deliver(e));
    assert Enabled(pr, s1, TimerFires) && s2 == Next(pr, h, s1, TimerFires);
    assert Enabled(pr, s2, Head(0)) && s3 == Next(pr, h, s2, Head(0));
    ThreeSteps(pr, h, s, s1, s2, s3, [Deliver(e), TimerFires, Head(0)]);
  }

  /** An edit of a watched file reaches a build of exactly that change. */
  lemma EditReachesBuild(pr: Project, s: State, p: Path, text: string) returns (steps: seq<Step>)
    requires s.sched == IDLE && s.undelivered == {} && p in s.fs.files && IsWatched(pr, p)
    ensures Valid(pr, Handlers(true, true), s, steps) && forall step :: step in steps ==> !step.StartRejected?
    ensures Run(pr, Handlers(true, true), s, steps) ==
      s.(fs := s.fs.(files := s.fs.files[p := text]), touched := {}, reshaped := false,
         sched := IDLE.(loopPromise := true, loops := [Building([FileEvent(Change, p)])]))
  {
    var h, e := Handlers(true, true), FileEvent(Change, p);
    var edited := Next(pr, h, s, EditFile(p, text));
    RunOf(pr, h, [s, edited], [EditFile(p, text)]);
    EventReachesStart(pr, edited, e);
    RunThen(pr, h, s, [EditFile(p, text)], [Deliver(e), TimerFires, Head(0)]);
    steps := [EditFile(p, text)] + [Deliver(e), TimerFires, Head(0)];
    var starting := Run(pr, h, s, steps);
    RunOf(pr, h, [starting, Next(pr, h, starting, Started(0))], [Started(0)]);
    RunThen(pr, h, s, steps, [Started(0)]);
    steps := steps + [Started(0)];
  }

  lemma FailedBuildComesToRest(pr: Project, s: State, batch: seq<FileEvent>) returns (steps: seq<Step>)
    requires s.sched == IDLE.(loopPromise := true, loops := [Building(batch)])
    ensures Valid(pr, Handlers(true, true), s, steps) && forall step :: step in steps ==> !step.StartRejected?
    ensures Run(pr, Handlers(true, true), s, steps) == s.(sched := IDLE, lost := s.lost + AsSet(batch))
  {
    var h := Handlers(true, true);
    steps := [Built(0, Failed(s.tree)), Notified(0), Head(0)];
    var s1 := s.(sched := IDLE.(loopPromise := true, loops := [Failing]), lost := s.lost + AsSet(batch));
    var s2 := s1.(sched := IDLE.(loopPromise := true, loops := [AtHead]));
    var s3 := s1.(sched := IDLE);
    assert s1 == Next(pr, h, s, steps[0]);
    assert s2 == Next(pr, h, s1, steps[1]);
    assert s3 == Next(pr, h, s2, steps[2]);
    ThreeSteps(pr, h, s, s1, s2, s3, steps);
  }

  /** A failed full rebuild drops its batch: the loop comes to rest with a tree that does not show the edit. */
  lemma FailedRebuildLosesEdit(pr: Project, s: State, p: Path, text: string) returns (steps: seq<Step>)
    requires Initial(pr, s) && s.snapshot && p in Sources(pr, s.fs) && IsWatched(pr, p) && p !in Shared(pr, s.fs)
    requires EmittedContent(pr, s.fs.(files := s.fs.files[p := text]), p) != EmittedContent(pr, s.fs, p)
    ensures Valid(pr, Handlers(true, true), s, steps) && forall step :: step in steps ==> !step.StartRejected?
    ensures var t := Run(pr, Handlers(true, true), s, steps);
      && Quiescent(t) && t.snapshot && t.sched.pendingEvents == [] && t.lost == {FileEvent(Change, p)} && !t.damaged
      && t.fs == s.fs.(files := s.fs.files[p := text])
      && t.tree.Some? && !IsFullBuild(pr, t.fs, t.tree.value)
  {
    var h := Handlers(true, true);
    var first := EditReachesBuild(pr, s, p, text);
    var rest := FailedBuildComesToRest(pr, Run(pr, h, s, first), [FileEvent(Change, p)]);
    RunThen(pr, h, s, first, rest);
    steps := first + rest;
    SameShared(pr, s.fs, s.fs.(files := s.fs.files[p := text]), {p});
    StaleUnit(pr, s.fs, s.fs.(files := s.fs.files[p := text]), s.tree.value, p);
  }

  /** A rejected onBuildStarted strands the queued events: nothing is armed, pending or running, and they wait. */
  lemma RejectedStartStrandsEvents(pr: Project, s: State, e: FileEvent) returns (steps: seq<Step>)
    requires s.sched == IDLE && s.undelivered == {e}
    ensures Valid(pr, Handlers(true, true), s, steps)
    ensures var t := Run(pr, Handlers(true, true), s, steps); Quiescent(t) && t.sched.pendingEvents == [e]
  {
    var h := Handlers(true, true);
    steps := [Deliver(e), TimerFires, Head(0)];
    EventReachesStart(pr, s, e);
    var starting := Run(pr, h, s, steps);
    RunOf(pr, h, [starting, Next(pr, h, starting, StartRejected(0))], [StartRejected(0)]);
    RunThen(pr, h, s, steps, [StartRejected(0)]);
    steps := steps + [StartRejected(0)];
  }

  lemma StaleUnit(pr: Project, f: FileSystem, g: FileSystem, tree: Tree, p: Path)
    requires IsFullBuild(pr, f, tree) && p in Sources(pr, f) && p in Sources(pr, g)
    requires p !in Shared(pr, f) && p !in Shared(pr, g)
    requires EmittedContent(pr, g, p) != EmittedContent(pr, f, p)
    ensures !IsFullBuild(pr, g, tree)
  {
    assert Fresh(pr, f, tree, p);
    assert HasConfig(pr, g) ==> p in Units(pr, g);
  }

  // ---------------------------------------------------------------- what becomes of an edit

  /** Nothing runs and nothing waits. */
  predicate AtRest(s: State) {
    s.sched == IDLE && s.undelivered == {}
  }

  lemma SourceEditIsIncremental(pr: Project, s: State, p: Path, version: int)
    requires s.sched == IDLE.(loopPromise := true, loops := [Building([FileEvent(Change, p)])])
    requires !s.reshaped && s.snapshot && s.tree.Some?
    requires HasConfig(pr, s.fs) && p in Sources(pr, s.fs) && !Structural(FileEvent(Change, p), ConfigPath(pr, s.fs))
    ensures Allowed(pr, s, [FileEvent(Change, p)], Incremental(s.fs, [p], version))
  {
    var batch := [FileEvent(Change, p)];
    assert batch[0] in batch && p in Emittable(batch) && batch != [];
    assert forall q :: q in [p] <==> q in Emittable(batch);
  }

  lemma CompletionComesToRest(pr: Project, s: State)
    requires s.sched == IDLE.(loopPromise := true, loops := [Completing])
    ensures Valid(pr, Handlers(true, true), s, [Notified(0), Head(0)])
    ensures Run(pr, Handlers(true, true), s, [Notified(0), Head(0)]) == s.(sched := IDLE)
  {
    var h := Handlers(true, true);
    var atHead := s.(sched := IDLE.(loopPromise := true, loops := [AtHead]));
    assert atHead == Next(pr, h, s, Notified(0));
    assert s.(sched := IDLE) == Next(pr, h, atHead, Head(0));
    RunOf(pr, h, [s, atHead, s.(sched := IDLE)], [Notified(0), Head(0)]);
  }

  lemma IncrementalBuildCompletes(pr: Project, s: State, p: Path, version: int)
    requires s.sched == IDLE.(loopPromise := true, loops := [Building([FileEvent(Change, p)])])
    requires Allowed(pr, s, [FileEvent(Change, p)], Incremental(s.fs, [p], version))
    ensures Enabled(pr, s, Built(0, Incremental(s.fs, [p], version)))
    ensures Next(pr, Handlers(true, true), s, Built(0, Incremental(s.fs, [p], version))) ==
      s.(sched := IDLE.(loopPromise := true, loops := [Completing]), snapshot := true,
         tree := Some(IncrementalTree(pr, s.fs, s.tree.value, [p], version)), lost := Unrepaired(s.lost, [p]))
  {
  }

  lemma IncrementalBuildComesToRest(pr: Project, s: State, p: Path, version: int) returns (steps: seq<Step>)
    requires s.sched == IDLE.(loopPromise := true, loops := [Building([FileEvent(Change, p)])])
    requires Allowed(pr, s, [FileEvent(Change, p)], Incremental(s.fs, [p], version))
    ensures Valid(pr, Handlers(true, true), s, steps)
    ensures Run(pr, Handlers(true, true), s, steps) ==
      s.(sched := IDLE, snapshot := true, tree := Some(IncrementalTree(pr, s.fs, s.tree.value, [p], version)),
         lost := Unrepaired(s.lost, [p]))
  {
    var h, built := Handlers(true, true), Built(0, Incremental(s.fs, [p], version));
    IncrementalBuildCompletes(pr, s, p, version);
    RunOf(pr, h, [s, Next(pr, h, s, built)], [built]);
    CompletionComesToRest(pr, Next(pr, h, s, built));
    RunThen(pr, h, s, [built], [Notified(0), Head(0)]);
    steps := [built] + [Notified(0), Head(0)];
  }

  /** From rest, an edit of a source can be built incrementally, and then the tree is the full build again; this also
      makes up for the failed build of an earlier edit of that source. */
  lemma EditIsBuiltIncrementally(pr: Project, s: State, p: Path, text: string, version: int)
    returns (steps: seq<Step>)
    requires Coherent(pr, s) && AtRest(s) && s.snapshot && s.tree.Some? && !s.damaged
    requires s.lost <= {FileEvent(Change, p)}
    requires HasConfig(pr, s.fs) && p in Sources(pr, s.fs) && IsWatched(pr, p)
    requires !Structural(FileEvent(Change, p), ConfigPath(pr, s.fs))
    ensures Valid(pr, Handlers(true, true), s, steps)
    ensures var t := Run(pr, Handlers(true, true), s, steps);
      && AtRest(t) && t.snapshot && t.lost == {} && t.fs == s.fs.(files := s.fs.files[p := text])
      && p in Sources(pr, t.fs) && HasConfig(pr, t.fs)
      && t.tree == Some(IncrementalTree(pr, t.fs, s.tree.value, [p], version))
      && IsFullBuild(pr, t.fs, t.tree.value)
  {
    var h, edited := Handlers(true, true), s.fs.(files := s.fs.files[p := text]);
    assert edited.Paths() == s.fs.Paths();
    var first := EditReachesBuild(pr, s, p, text);
    var building := Run(pr, h, s, first);
    SourceEditIsIncremental(pr, building, p, version);
    var rest := IncrementalBuildComesToRest(pr, building, p, version);
    RunThen(pr, h, s, first, rest);
    steps := first + rest;
    RunIsCoherent(pr, h, s, steps);
    RestOf(pr, Run(pr, h, s, steps));
  }

  /** So an edit that was lost with a failed rebuild is made up for by the next edit of the same source. */
  lemma NextEditRepairs(pr: Project, s: State, p: Path, text: string, again: string, version: int)
    returns (first: seq<Step>, rest: seq<Step>)
    requires Initial(pr, s) && s.snapshot && p in Sources(pr, s.fs) && IsWatched(pr, p) && p !in Shared(pr, s.fs)
    requires EmittedContent(pr, s.fs.(files := s.fs.files[p := text]), p) != EmittedContent(pr, s.fs, p)
    requires !Structural(FileEvent(Change, p), ConfigPath(pr, s.fs))
    ensures Valid(pr, Handlers(true, true), s, first)
    ensures var t := Run(pr, Handlers(true, true), s, first);
      && Quiescent(t) && t.tree.Some? && !IsFullBuild(pr, t.fs, t.tree.value)
      && Valid(pr, Handlers(true, true), t, rest)
    ensures var failed := Run(pr, Handlers(true, true), s, first);
      var t := Run(pr, Handlers(true, true), failed, rest);
      && AtRest(t) && t.fs == failed.fs.(files := failed.fs.files[p := again])
      && t.tree.Some? && IsFullBuild(pr, t.fs, t.tree.value)
  {
    var h := Handlers(true, true);
    first := FailedRebuildLosesEdit(pr, s, p, text);
    var failed := Run(pr, h, s, first);
    InitialIsCoherent(pr, s);
    RunIsCoherent(pr, h, s, first);
    RestIsIdle(failed);
    EditedIsAlike(pr, s.fs, p, text);
    rest := EditIsBuiltIncrementally(pr, failed, p, again, version);
  }

  lemma EditedIsAlike(pr: Project, fs: FileSystem, p: Path, text: string)
    requires p in Sources(pr, fs)
    ensures var g := fs.(files := fs.files[p := text]);
      ConfigPath(pr, g) == ConfigPath(pr, fs) && p in Sources(pr, g) && (HasConfig(pr, fs) ==> HasConfig(pr, g))
  {
    assert fs.(files := fs.files[p := text]).Paths() == fs.Paths();
  }

  lemma RestIsIdle(s: State)
    requires Quiescent(s) && Scheduled(s.sched) && s.sched.pendingEvents == []
    ensures AtRest(s)
  {
  }

  /** A build may or may not read a file that is edited while it runs; in either case the event of the edit waits. */
  lemma BuildMayMissEdit(
    pr: Project, h: Handlers, s: State, i: nat, p: Path, text: string, sources: seq<Path>, version: int)
    requires i < |s.sched.loops| && s.sched.loops[i].Building? && !s.reshaped
    requires p in s.fs.files && IsWatched(pr, p) && !Structural(FileEvent(Change, p), ConfigPath(pr, s.fs))
    requires HasConfig(pr, s.fs) && Enumerates(sources, Sources(pr, s.fs))
    ensures Enabled(pr, s, EditFile(p, text))
    ensures var t := Next(pr, h, s, EditFile(p, text));
      && FileEvent(Change, p) in t.undelivered && t.fs == s.fs.(files := s.fs.files[p := text])
      && Enabled(pr, t, Built(i, Full(s.fs, sources, version)))
      && Enabled(pr, t, Built(i, Full(t.fs, sources, version)))
  {
    var t := Next(pr, h, s, EditFile(p, text));
    assert t.fs.Paths() == s.fs.Paths() && ConfigPath(pr, t.fs) == ConfigPath(pr, s.fs);
    assert Sources(pr, t.fs) == Sources(pr, s.fs);
  }

  /** Files may come and go at any time, with an event; a build that runs meanwhile may promote any tree. */
  lemma BuildMayRace(
    pr: Project, h: Handlers, s: State, i: nat, fs: FileSystem, e: FileEvent, full: bool, tree: Tree)
    requires i < |s.sched.loops| && s.sched.loops[i].Building? && e.kind != Change
    ensures Enabled(pr, s, Reshape(fs, e))
    ensures var t := Next(pr, h, s, Reshape(fs, e));
      && e in t.undelivered && t.fs == fs && Enabled(pr, t, Built(i, Raced(full, tree)))
      && Next(pr, h, t, Built(i, Raced(full, tree))).tree == Some(tree)
  {
  }
}

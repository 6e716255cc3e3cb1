/**
 The watch loop as a state machine over the steps between its awaits, next to a file system that changes at any time.

 A step of the environment changes the file system and leaves an event to be delivered. A build reads files one by one
 while the file system changes under it, so a finished build is the build of some `view`, which agrees with the current
 file system outside the paths touched since the build took its batch.
 */
module WatchLoop {
  import opened Wrappers
  import opened SourcePaths
  import opened ConsumerBuild
  import opened IncrementalBuild

  // ---------------------------------------------------------------- the scheduler

  /** Where a running flush loop is: at the test of its loop, or at one of its awaits. */
  datatype Phase = AtHead | Starting | Building(batch: seq<FileEvent>) | Completing | Failing

  /** The builder's fields; `loops` are the flush loops that are running, of which `loopPromise` knows one. */
  datatype Scheduler = Scheduler(
    pendingEvents: seq<FileEvent>,
    timerArmed: bool,
    queuedEvent: bool,
    pendingBuild: bool,
    loopPromise: bool,
    loops: seq<Phase>
  )

  const IDLE := Scheduler([], false, false, false, false, [])

  /** Which of the two optional callbacks the caller passed. */
  datatype Handlers = Handlers(onStarted: bool, onFailed: bool)

  function OnEvent(s: Scheduler, e: Option<FileEvent>): Scheduler {
    s.(pendingEvents := if e.Some? then s.pendingEvents + [e.value] else s.pendingEvents,
       queuedEvent := true, timerArmed := true)
  }

  function OnTimer(s: Scheduler): Scheduler {
    s.(timerArmed := false, queuedEvent := false, pendingBuild := true, loopPromise := true,
       loops := if s.loopPromise then s.loops else s.loops + [AtHead])
  }

  function Take(s: Scheduler, i: nat): Scheduler
    requires i < |s.loops|
  {
    s.(pendingEvents := [], loops := s.loops[i := Building(s.pendingEvents)])
  }

  function OnHead(h: Handlers, s: Scheduler, i: nat): Scheduler
    requires i < |s.loops|
  {
    if !s.pendingBuild then s.(loopPromise := false, loops := s.loops[..i] + s.loops[i + 1..])
    else if h.onStarted then s.(pendingBuild := false, loops := s.loops[i := Starting])
    else Take(s.(pendingBuild := false), i)
  }

  /** A rejected onBuildStarted, and a rejected onBuildFailed, leave through the `finally` block. */
  function OnLeave(s: Scheduler, i: nat): Scheduler
    requires i < |s.loops|
  {
    if s.pendingBuild then s.(loopPromise := true, loops := s.loops[i := AtHead])
    else s.(loopPromise := false, loops := s.loops[..i] + s.loops[i + 1..])
  }

  function OnError(h: Handlers, s: Scheduler, i: nat): Scheduler
    requires i < |s.loops|
  {
    s.(loops := s.loops[i := if h.onFailed && !s.pendingBuild && !s.queuedEvent then Failing else AtHead])
  }

  // ---------------------------------------------------------------- the system

  /** `touched` and `reshaped` record what changed since the last batch was taken. `lost` are the events of batches
      whose builds failed, and `damaged` says that a failed promotion changed the promoted tree; a full build ends
      both. */
  datatype State = State(
    fs: FileSystem,
    undelivered: set<FileEvent>,
    sched: Scheduler,
    snapshot: bool,
    tree: Option<Tree>,
    touched: set<Path>,
    reshaped: bool,
    lost: set<FileEvent>,
    damaged: bool
  )

  function AsSet<T>(s: seq<T>): set<T> {
    set x | x in s
  }

  /** How a build ends. A build during which the set of paths or the config changed may promote anything. */
  datatype Outcome =
    | Incremental(view: FileSystem, changed: seq<Path>, version: int)
    | Full(view: FileSystem, sources: seq<Path>, version: int)
    | Raced(full: bool, tree: Tree)
    | Failed(left: Option<Tree>)

  datatype Step =
    | EditFile(path: Path, text: string)
    | Reshape(fs: FileSystem, event: FileEvent)
    | Deliver(event: FileEvent)
    | DeliverNameless
    | TimerFires
    | Head(loop: nat)
    | Started(loop: nat)
    | StartRejected(loop: nat)
    | Built(loop: nat, outcome: Outcome)
    | Notified(loop: nat)
    | CompletionRejected(loop: nat)
    | FailureRejected(loop: nat)

  /** The guards of the incremental path. */
  predicate ChoosesIncremental(
    pr: Project, snapshot: bool, tree: Option<Tree>, batch: seq<FileEvent>, view: FileSystem)
  {
    && batch != [] && snapshot && ConfigPath(pr, view).Some?
    && (forall e :: e in batch ==> !Structural(e, ConfigPath(pr, view)))
    && Emittable(batch) != {} && tree.Some?
  }

  ghost predicate Allowed(pr: Project, s: State, batch: seq<FileEvent>, o: Outcome) {
    match o
    case Incremental(view, changed, _) =>
      && !s.reshaped && AgreeExcept(view, s.fs, s.touched)
      && ChoosesIncremental(pr, s.snapshot, s.tree, batch, view)
      && Enumerates(changed, Emittable(batch))
      && HasConfig(pr, view) && forall p :: p in changed ==> p in Sources(pr, view)
    case Full(view, sources, _) =>
      && !s.reshaped && AgreeExcept(view, s.fs, s.touched)
      && HasConfig(pr, view) && Enumerates(sources, Sources(pr, view))
    case Raced(_, _) => s.reshaped
    case Failed(_) => true
  }

  ghost predicate Enabled(pr: Project, s: State, step: Step) {
    match step
    case EditFile(p, _) => p in s.fs.files && IsWatched(pr, p)
    case Reshape(_, e) => e.kind != Change
    case Deliver(e) => e in s.undelivered
    case DeliverNameless => true
    case TimerFires => s.sched.timerArmed
    case Head(i) => i < |s.sched.loops| && s.sched.loops[i] == AtHead
    case Started(i) => i < |s.sched.loops| && s.sched.loops[i] == Starting
    case StartRejected(i) => i < |s.sched.loops| && s.sched.loops[i] == Starting
    case Built(i, o) =>
      i < |s.sched.loops| && s.sched.loops[i].Building? && Allowed(pr, s, s.sched.loops[i].batch, o)
    case Notified(i) => i < |s.sched.loops| && (s.sched.loops[i] == Completing || s.sched.loops[i] == Failing)
    case CompletionRejected(i) => i < |s.sched.loops| && s.sched.loops[i] == Completing
    case FailureRejected(i) => i < |s.sched.loops| && s.sched.loops[i] == Failing
  }

  /** A batch is taken when a loop starts building. */
  function Taking(s: State, sched: Scheduler): State {
    s.(sched := sched, touched := {}, reshaped := false)
  }

  /** The lost events that emitting some paths does not make up for. */
  function Unrepaired(lost: set<FileEvent>, changed: seq<Path>): set<FileEvent> {
    set e | e in lost && (e.kind != Change || e.path !in changed)
  }

  function Promote(s: State, i: nat, tree: Tree): State
    requires i < |s.sched.loops|
  {
    s.(sched := s.sched.(loops := s.sched.loops[i := Completing]), snapshot := true, tree := Some(tree))
  }

  ghost function AfterBuild(pr: Project, h: Handlers, s: State, i: nat, o: Outcome): State
    requires i < |s.sched.loops| && s.sched.loops[i].Building? && Allowed(pr, s, s.sched.loops[i].batch, o)
  {
    match o
    case Incremental(view, changed, version) =>
      Promote(s, i, IncrementalTree(pr, view, s.tree.value, changed, version)).(lost := Unrepaired(s.lost, changed))
    case Full(view, sources, version) =>
      Promote(s, i, FullTree(pr, view, sources, version)).(lost := {}, damaged := false)
    case Raced(full, tree) =>
      if full then Promote(s, i, tree).(lost := {}, damaged := false) else Promote(s, i, tree)
    case Failed(left) =>
      s.(sched := OnError(h, s.sched, i), tree := left,
         lost := s.lost + AsSet(s.sched.loops[i].batch), damaged := s.damaged || left != s.tree)
  }

  ghost function Next(pr: Project, h: Handlers, s: State, step: Step): State
    requires Enabled(pr, s, step)
  {
    match step
    case EditFile(p, text) =>
      var e := FileEvent(Change, p);
      s.(fs := s.fs.(files := s.fs.files[p := text]), undelivered := s.undelivered + {e},
         touched := s.touched + {p}, reshaped := s.reshaped || Structural(e, ConfigPath(pr, s.fs)))
    case Reshape(fs, e) => s.(fs := fs, undelivered := s.undelivered + {e}, reshaped := true)
    case Deliver(e) => s.(undelivered := s.undelivered - {e}, sched := OnEvent(s.sched, Some(e)))
    case DeliverNameless => s.(sched := OnEvent(s.sched, None))
    case TimerFires => s.(sched := OnTimer(s.sched))
    case Head(i) =>
      if s.sched.pendingBuild && !h.onStarted then Taking(s, OnHead(h, s.sched, i))
      else s.(sched := OnHead(h, s.sched, i))
    case Started(i) => Taking(s, Take(s.sched, i))
    case StartRejected(i) => s.(sched := OnLeave(s.sched, i))
    case Built(i, o) => AfterBuild(pr, h, s, i, o)
    case Notified(i) => s.(sched := s.sched.(loops := s.sched.loops[i := AtHead]))
    case CompletionRejected(i) => s.(sched := OnError(h, s.sched, i))
    case FailureRejected(i) => s.(sched := OnLeave(s.sched, i))
  }

  ghost predicate Valid(pr: Project, h: Handlers, s: State, steps: seq<Step>)
    decreases |steps|
  {
    steps == [] || (Enabled(pr, s, steps[0]) && Valid(pr, h, Next(pr, h, s, steps[0]), steps[1..]))
  }

  ghost function Run(pr: Project, h: Handlers, s: State, steps: seq<Step>): State
    requires Valid(pr, h, s, steps)
    decreases |steps|
  {
    if steps == [] then s else Run(pr, h, Next(pr, h, s, steps[0]), steps[1..])
  }

  // ---------------------------------------------------------------- single flight, no lost wake-up

  predicate SingleFlight(s: Scheduler) {
    |s.loops| <= 1 && (s.loopPromise <==> |s.loops| == 1)
  }

  predicate Scheduled(s: Scheduler) {
    && SingleFlight(s)
    && (s.queuedEvent <==> s.timerArmed)
    && (s.pendingBuild ==> |s.loops| == 1)
  }

  /** Queued events are going to be taken. */
  predicate NoLostWakeup(s: Scheduler) {
    s.pendingEvents != [] ==> s.timerArmed || s.pendingBuild || s.loops == [Starting]
  }

  lemma OneLoop(s: Scheduler)
    requires |s.loops| == 1
    ensures s.loops == [s.loops[0]] && s.loops[..0] + s.loops[1..] == []
    ensures forall p :: s.loops[0 := p] == [p]
  {
  }

  /** The scheduler's part of a step. */
  ghost function NextScheduler(pr: Project, h: Handlers, s: State, step: Step): Scheduler
    requires Enabled(pr, s, step)
  {
    match step
    case Built(i, Failed(_)) => OnError(h, s.sched, i)
    case Built(i, _) => s.sched.(loops := s.sched.loops[i := Completing])
    case EditFile(_, _) => s.sched
    case Reshape(_, _) => s.sched
    case Deliver(e) => OnEvent(s.sched, Some(e))
    case DeliverNameless => OnEvent(s.sched, None)
    case TimerFires => OnTimer(s.sched)
    case Head(i) => OnHead(h, s.sched, i)
    case Started(i) => Take(s.sched, i)
    case StartRejected(i) => OnLeave(s.sched, i)
    case Notified(i) => s.sched.(loops := s.sched.loops[i := AtHead])
    case CompletionRejected(i) => OnError(h, s.sched, i)
    case FailureRejected(i) => OnLeave(s.sched, i)
  }

  lemma SchedulerOf(pr: Project, h: Handlers, s: State, step: Step)
    requires Enabled(pr, s, step)
    ensures Next(pr, h, s, step).sched == NextScheduler(pr, h, s, step)
  {
  }

  lemma StepKeepsSchedule(pr: Project, h: Handlers, s: State, step: Step)
    requires Scheduled(s.sched) && Enabled(pr, s, step)
    ensures Scheduled(Next(pr, h, s, step).sched)
    ensures NoLostWakeup(s.sched) && !step.StartRejected? ==> NoLostWakeup(Next(pr, h, s, step).sched)
  {
    SchedulerOf(pr, h, s, step);
    if |s.sched.loops| == 1 {
      OneLoop(s.sched);
    }
  }

  function OnEvents(s: Scheduler, es: seq<FileEvent>): Scheduler {
    if es == [] then s else OnEvent(OnEvents(s, es[..|es| - 1]), Some(es[|es| - 1]))
  }

  lemma {:induction false} EventsQueueUp(s: Scheduler, es: seq<FileEvent>)
    ensures OnEvents(s, es) ==
      if es == [] then s else s.(pendingEvents := s.pendingEvents + es, queuedEvent := true, timerArmed := true)
  {
    if es != [] {
      EventsQueueUp(s, es[..|es| - 1]);
      assert s.pendingEvents + es == s.pendingEvents + es[..|es| - 1] + [es[|es| - 1]];
      assert es[..0] == [] && s.pendingEvents + [] == s.pendingEvents;
    }
  }

  /** From rest, the events that arrive before the timer fires are the batch of one build, in the order of arrival. */
  lemma BatchInOrder(es: seq<FileEvent>, onFailed: bool)
    requires es != []
    ensures var armed := OnEvents(IDLE, es);
      && armed.timerArmed && armed.loops == [] && |OnTimer(armed).loops| == 1
      && OnHead(Handlers(false, onFailed), OnTimer(armed), 0) ==
           IDLE.(loopPromise := true, loops := [Building(es)])
  {
    EventsQueueUp(IDLE, es);
    assert IDLE.pendingEvents + es == es;
  }

  /** A nameless event can come at any time, and makes a build due without being part of its batch. */
  lemma NamelessEventArms(pr: Project, h: Handlers, s: State)
    ensures Enabled(pr, s, DeliverNameless)
    ensures var t := Next(pr, h, s, DeliverNameless).sched;
      t.timerArmed && t.queuedEvent && t.pendingEvents == s.sched.pendingEvents && t.loops == s.sched.loops
  {
  }

  /** A rejected onBuildFailed ends the loop, unless another build has become pending meanwhile. */
  lemma RejectedFailureReport(pr: Project, h: Handlers, s: State)
    requires Scheduled(s.sched) && s.sched.loops == [Failing]
    ensures Enabled(pr, s, FailureRejected(0))
    ensures var t := Next(pr, h, s, FailureRejected(0)).sched;
      && t.loops == (if s.sched.pendingBuild then [AtHead] else []) && t.pendingEvents == s.sched.pendingEvents
      && t.timerArmed == s.sched.timerArmed && t.pendingBuild == s.sched.pendingBuild
  {
  }

  /** Events are queued, and nothing will ever take them unless another event arrives. */
  predicate Stranded(s: Scheduler) {
    s.pendingEvents != [] && Stopped(s)
  }

  predicate Stopped(s: Scheduler) {
    s.loops == [] && !s.timerArmed && !s.pendingBuild
  }

  predicate Delivers(step: Step) {
    step.Deliver? || step.DeliverNameless?
  }

  /** A rejected onBuildStarted while events are queued and no newer event has come in. */
  predicate Strands(s: State, step: Step) {
    step.StartRejected? && s.sched.pendingEvents != [] && !s.sched.timerArmed && !s.sched.pendingBuild
  }

  /** After a rejected onBuildStarted the queued events are still going to be taken exactly when it does not strand
      them; any event brings stranded ones back. */
  lemma RejectedStart(pr: Project, h: Handlers, s: State, step: Step)
    requires Scheduled(s.sched) && Enabled(pr, s, step)
    ensures step.StartRejected? ==> (NoLostWakeup(Next(pr, h, s, step).sched) <==> !Strands(s, step))
    ensures Delivers(step) ==> NoLostWakeup(Next(pr, h, s, step).sched)
  {
    SchedulerOf(pr, h, s, step);
    if |s.sched.loops| == 1 {
      OneLoop(s.sched);
    }
  }

  lemma StepStrands(pr: Project, h: Handlers, s: State, step: Step)
    requires Scheduled(s.sched) && Enabled(pr, s, step) && (NoLostWakeup(s.sched) || Stranded(s.sched))
    ensures NoLostWakeup(Next(pr, h, s, step).sched) || Stranded(Next(pr, h, s, step).sched)
    ensures Stranded(Next(pr, h, s, step).sched) <==>
      if Stranded(s.sched) then !Delivers(step) else Strands(s, step)
  {
    SchedulerOf(pr, h, s, step);
    StepKeepsSchedule(pr, h, s, step);
    RejectedStart(pr, h, s, step);
    if |s.sched.loops| == 1 {
      OneLoop(s.sched);
    }
  }

  /** Step `i` of the run strands events, and no event arrives after it. */
  ghost predicate StrandsForGood(pr: Project, h: Handlers, s: State, steps: seq<Step>, i: nat)
    requires i < |steps|
  {
    && Valid(pr, h, s, steps[..i]) && Strands(Run(pr, h, s, steps[..i]), steps[i])
    && forall j :: i < j < |steps| ==> !Delivers(steps[j])
  }

  lemma LaterStep(pr: Project, h: Handlers, s: State, steps: seq<Step>, i: nat)
    requires Valid(pr, h, s, steps) && i + 1 < |steps|
    ensures StrandsForGood(pr, h, s, steps, i + 1) <==>
      StrandsForGood(pr, h, Next(pr, h, s, steps[0]), steps[1..], i)
  {
    assert steps[..i + 1][1..] == steps[1..][..i];
    assert forall j :: i < j < |steps| - 1 ==> steps[1..][j] == steps[j + 1];
  }

  /**
   Over every run: at most one build is in flight, and queued events are going to be taken, except from a rejected
   onBuildStarted that found no newer event to the next event that arrives.
   */
  lemma {:induction false} ScheduleOverRuns(pr: Project, h: Handlers, s: State, steps: seq<Step>)
    requires Scheduled(s.sched) && (NoLostWakeup(s.sched) || Stranded(s.sched)) && Valid(pr, h, s, steps)
    ensures Scheduled(Run(pr, h, s, steps).sched)
    ensures NoLostWakeup(Run(pr, h, s, steps).sched) || Stranded(Run(pr, h, s, steps).sched)
    ensures Stranded(Run(pr, h, s, steps).sched) <==>
      || (Stranded(s.sched) && forall j :: 0 <= j < |steps| ==> !Delivers(steps[j]))
      || exists i :: 0 <= i < |steps| && StrandsForGood(pr, h, s, steps, i)
    decreases |steps|
  {
    if steps != [] {
      var t, rest := Next(pr, h, s, steps[0]), steps[1..];
      StepKeepsSchedule(pr, h, s, steps[0]);
      StepStrands(pr, h, s, steps[0]);
      ScheduleOverRuns(pr, h, t, rest);
      StrandedFromHere(pr, h, s, steps);
    }
  }

  /** Whether a run strands events is decided by its first step and the rest. */
  lemma StrandedFromHere(pr: Project, h: Handlers, s: State, steps: seq<Step>)
    requires steps != [] && Valid(pr, h, s, steps)
    ensures (exists i :: 0 <= i < |steps| && StrandsForGood(pr, h, s, steps, i)) <==>
      || (Strands(s, steps[0]) && forall j :: 0 <= j < |steps| - 1 ==> !Delivers(steps[1..][j]))
      || exists i :: 0 <= i < |steps| - 1 && StrandsForGood(pr, h, Next(pr, h, s, steps[0]), steps[1..], i)
  {
    forall i | 0 <= i < |steps| - 1
      ensures StrandsForGood(pr, h, s, steps, i + 1) <==>
        StrandsForGood(pr, h, Next(pr, h, s, steps[0]), steps[1..], i)
    {
      LaterStep(pr, h, s, steps, i);
    }
    assert steps[..0] == [];
    assert StrandsForGood(pr, h, s, steps, 0) <==>
      Strands(s, steps[0]) && forall j :: 0 <= j < |steps| - 1 ==> !Delivers(steps[1..][j]) by {
      assert forall j :: 0 < j < |steps| ==> steps[j] == steps[1..][j - 1];
    }
    if i :| 0 <= i < |steps| && StrandsForGood(pr, h, s, steps, i) {
      if i > 0 {
        assert StrandsForGood(pr, h, Next(pr, h, s, steps[0]), steps[1..], i - 1);
      }
    }
  }

  /** A failure is reported exactly when nothing newer is coming, and then no queued event is left behind either. */
  lemma FailureIsReportedLast(pr: Project, h: Handlers, s: State, step: Step)
    requires Scheduled(s.sched) && NoLostWakeup(s.sched) && Enabled(pr, s, step)
    requires (step.Built? && step.outcome.Failed?) || step.CompletionRejected?
    ensures var t := Next(pr, h, s, step).sched;
      && |t.loops| == 1 && (t.loops[0] == Failing || t.loops[0] == AtHead)
      && (t.loops[0] == Failing <==> h.onFailed && !t.timerArmed && !t.pendingBuild)
      && (t.loops[0] == Failing ==> t.pendingEvents == [])
  {
    SchedulerOf(pr, h, s, step);
    OneLoop(s.sched);
    assert Next(pr, h, s, step).sched == OnError(h, s.sched, 0);
  }

  // ---------------------------------------------------------------- the loop stops

  predicate FromOutside(step: Step) {
    step.EditFile? || step.Reshape? || step.Deliver? || step.DeliverNameless?
  }

  function Weight(p: Phase): nat {
    match p
    case AtHead => 1
    case Failing => 2
    case Completing => 3
    case Building(_) => 4
    case Starting => 5
  }

  /** Decreases with every step that is not a file event. */
  function Measure(s: Scheduler): nat {
    (if s.timerArmed then 7 else 0) + (if s.pendingBuild then 5 else 0) +
    if |s.loops| == 1 then Weight(s.loops[0]) else 0
  }

  /** How many iterations can still begin without another file event. */
  function Budget(s: Scheduler): nat {
    (if s.timerArmed then 1 else 0) + if s.pendingBuild then 1 else 0
  }

  predicate BeginsIteration(s: State, step: Step) {
    step.Head? && s.sched.pendingBuild
  }

  ghost function Iterations(pr: Project, h: Handlers, s: State, steps: seq<Step>): nat
    requires Valid(pr, h, s, steps)
    decreases |steps|
  {
    if steps == [] then 0
    else (if BeginsIteration(s, steps[0]) then 1 else 0) + Iterations(pr, h, Next(pr, h, s, steps[0]), steps[1..])
  }

  lemma StepMakesProgress(pr: Project, h: Handlers, s: State, step: Step)
    requires Scheduled(s.sched) && Enabled(pr, s, step) && !FromOutside(step)
    ensures Measure(Next(pr, h, s, step).sched) < Measure(s.sched)
    ensures Budget(Next(pr, h, s, step).sched) + (if BeginsIteration(s, step) then 1 else 0) <= Budget(s.sched)
  {
    SchedulerOf(pr, h, s, step);
    if |s.sched.loops| == 1 {
      OneLoop(s.sched);
    }
  }

  /** After the last file event at most two iterations begin, in at most seventeen steps, and then the loop has
      stopped. */
  lemma {:induction false} AtMostTwoMoreIterations(pr: Project, h: Handlers, s: State, steps: seq<Step>)
    requires Scheduled(s.sched) && Valid(pr, h, s, steps)
    requires forall step :: step in steps ==> !FromOutside(step)
    ensures |steps| + Measure(Run(pr, h, s, steps).sched) <= Measure(s.sched) <= 17
    ensures Iterations(pr, h, s, steps) + Budget(Run(pr, h, s, steps).sched) <= Budget(s.sched) <= 2
    ensures Measure(Run(pr, h, s, steps).sched) == 0 <==> Stopped(Run(pr, h, s, steps).sched)
    decreases |steps|
  {
    if steps != [] {
      StepMakesProgress(pr, h, s, steps[0]);
      StepKeepsSchedule(pr, h, s, steps[0]);
      AtMostTwoMoreIterations(pr, h, Next(pr, h, s, steps[0]), steps[1..]);
    }
  }

  /** Until it has stopped, the loop is never stuck: some step other than a file event is possible. */
  lemma NeverStuck(pr: Project, s: State) returns (step: Step)
    requires Scheduled(s.sched) && !Stopped(s.sched)
    ensures Enabled(pr, s, step) && !FromOutside(step) && !step.StartRejected?
  {
    if s.sched.timerArmed { return TimerFires; }
    match s.sched.loops[0]
    case AtHead => step := Head(0);
    case Starting => step := Started(0);
    case Building(_) => step := Built(0, Failed(None));
    case Completing => step := Notified(0);
    case Failing => step := Notified(0);
  }
}

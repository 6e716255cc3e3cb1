/**
 The rebuild lifecycle of a dev session: one in-process runtime behind a proxy, swapped on every source change, with
 failures possible at every await. The proxy's setters are total. A rebuild is cut where it awaits the restart of the
 UI, since the exit of the old UI has to be ignored there. That rebuilds never overlap is shown in module DevLoop.
 */
module DevSession {
  import opened Wrappers

  datatype DevMode = WatchFramework | PackagedUi | ApiOnly

  datatype BuildStatus = StatusIdle | StatusBuilding | StatusErrored

  /** What the outside can observe, in order. Runtimes are numbered as they are created. `BootFailed` is the
      build-failed broadcast of the boot, which no build-started broadcast precedes. */
  datatype Effect =
    | BootFailed | BuildStarted | BuildCompleted | BuildFailed
    | RuntimeCreated(id: nat) | StopAttempted(id: nat)

  /** What the session waits for to end; the first settlement counts. */
  datatype StopPromise = Unsettled | Resolved | Rejected

  /** `route` is the runtime that the proxy forwards to. */
  datatype Session = Session(
    currentRuntime: Option<nat>,
    route: Option<nat>,
    status: BuildStatus,
    isRestartingUi: bool,
    stopRequested: bool,
    stopPromise: StopPromise,
    nextId: nat,
    log: seq<Effect>
  )

  const NEW := Session(None, None, StatusIdle, false, false, Unsettled, 0, [])

  /** Which of the awaited operations of a rebuild fail. A failing stop of a discarded runtime is ignored. */
  datatype Faults = Faults(publish: bool, create: bool, probe: bool, summary: bool, uiSettings: bool, uiRestart: bool)

  /** Which operations of a shutdown fail. */
  datatype StopFaults = StopFaults(runtime: bool, children: bool, proxy: bool)

  datatype Ending = Returned | Threw

  // ---------------------------------------------------------------- the steps as functions of the session

  function Log(s: Session, e: Effect): Session {
    s.(log := s.log + [e])
  }

  function Boot(s: Session, createFails: bool): Session {
    if createFails then Log(s, BootFailed).(status := StatusErrored)
    else Log(s, RuntimeCreated(s.nextId)).(
      nextId := s.nextId + 1, currentRuntime := Some(s.nextId), route := Some(s.nextId), status := StatusIdle)
  }

  /** The old runtime is stopped before anything else happens. */
  function Discard(s: Session): Session {
    if s.currentRuntime.None? then s
    else Log(s, StopAttempted(s.currentRuntime.value)).(currentRuntime := None, route := None)
  }

  function Begin(s: Session): Session {
    Discard(Log(s, BuildStarted).(status := StatusBuilding))
  }

  function Create(s: Session): Session {
    Log(s, RuntimeCreated(s.nextId)).(
      nextId := s.nextId + 1, currentRuntime := Some(s.nextId), route := Some(s.nextId))
  }

  /** Where a rebuild has come to: its end, or the await of the UI restart. */
  datatype Progress = Done(ending: Ending) | AwaitsUi

  function StartRebuild(s: Session, mode: DevMode, restartUi: bool, f: Faults): (Session, Progress) {
    var begun := Begin(s);
    if mode != WatchFramework && f.publish then (Log(begun, BuildFailed).(status := StatusIdle), Done(Threw))
    else if f.create then (Log(begun, BuildFailed).(status := StatusErrored), Done(Returned))
    else
      var created := Create(begun);
      if f.probe then (Discard(Log(created, BuildFailed)).(status := StatusErrored), Done(Returned))
      else if f.summary then (Log(created, BuildFailed).(status := StatusIdle), Done(Threw))
      else if restartUi && mode != ApiOnly then
        if f.uiSettings then (Log(created, BuildFailed).(status := StatusIdle), Done(Threw))
        else (created.(status := StatusIdle, isRestartingUi := true), AwaitsUi)
      else (Log(created, BuildCompleted).(status := StatusIdle), Done(Returned))
  }

  /** The UI has been replaced, or that failed; either way its exits count again. */
  function EndUiRestart(s: Session, fails: bool): (Session, Ending) {
    var t := s.(isRestartingUi := false);
    if fails then (Log(t, BuildFailed).(status := StatusIdle), Threw) else (Log(t, BuildCompleted), Returned)
  }

  /** A rebuild during which nothing else happens. */
  function Rebuild(s: Session, mode: DevMode, restartUi: bool, f: Faults): (Session, Ending) {
    match StartRebuild(s, mode, restartUi, f)
    case (t, Done(ending)) => (t, ending)
    case (t, AwaitsUi) => EndUiRestart(t, f.uiRestart)
  }

  /** Stopping everything: the first operation that fails skips the rest. */
  function StopAll(s: Session, f: StopFaults): (Session, Ending) {
    var t := Discard(s).(route := None);
    (t, if (s.currentRuntime.Some? && f.runtime) || f.children || f.proxy then Threw else Returned)
  }

  function Settle(s: Session, p: StopPromise): Session {
    if s.stopPromise == Unsettled then s.(stopPromise := p) else s
  }

  /** After a rebuild that threw, or the unexpected exit of a plugin build. */
  function FailSession(s: Session, f: StopFaults): Session {
    var (t, ending) := StopAll(s.(stopRequested := true), f);
    if ending == Threw then t else Settle(t, Rejected)
  }

  /** On a signal. The process exits after it, so that nothing follows it in the program. */
  function Shutdown(s: Session, f: StopFaults): Session {
    Settle(StopAll(s.(stopRequested := true), f).0, Resolved)
  }

  /** The UI process has ended by itself; only the development UI can do so cleanly. */
  function UiExits(s: Session, cleanly: bool): Session {
    if s.stopRequested || s.isRestartingUi then s
    else Settle(s.(stopRequested := true), if cleanly then Resolved else Rejected)
  }

  // ---------------------------------------------------------------- what the log must look like

  /** The runtimes that were created and on which no stop was attempted yet. */
  function Unstopped(log: seq<Effect>): set<nat> {
    if log == [] then {}
    else
      var before := Unstopped(log[..|log| - 1]);
      match log[|log| - 1]
      case RuntimeCreated(id) => before + {id}
      case StopAttempted(id) => before - {id}
      case _ => before
  }

  /** Every runtime was created when no other was unstopped. */
  predicate OneAtATime(log: seq<Effect>) {
    log == [] ||
    (OneAtATime(log[..|log| - 1]) && (log[|log| - 1].RuntimeCreated? ==> Unstopped(log[..|log| - 1]) == {}))
  }

  /** The number of build-started broadcasts that were not answered yet, or -1 if some answer answered nothing. */
  function Unanswered(log: seq<Effect>): int {
    if log == [] then 0
    else
      var before := Unanswered(log[..|log| - 1]);
      match log[|log| - 1]
      case BuildStarted => if before < 0 then before else before + 1
      case BuildCompleted => if before <= 0 then -1 else before - 1
      case BuildFailed => if before <= 0 then -1 else before - 1
      case _ => before
  }

  lemma LogOne(s: Session, e: Effect)
    ensures Log(s, e).log[..|Log(s, e).log| - 1] == s.log
    ensures Unstopped(Log(s, e).log) ==
      match e
      case RuntimeCreated(id) => Unstopped(s.log) + {id}
      case StopAttempted(id) => Unstopped(s.log) - {id}
      case _ => Unstopped(s.log)
    ensures OneAtATime(Log(s, e).log) <==> OneAtATime(s.log) && (e.RuntimeCreated? ==> Unstopped(s.log) == {})
  {
  }

  /** The current runtime is the one that was not stopped, and it is the one that is routed. */
  predicate OneRuntime(s: Session) {
    && OneAtATime(s.log)
    && Unstopped(s.log) == (if s.currentRuntime.Some? then {s.currentRuntime.value} else {})
    && (forall id :: id in Unstopped(s.log) ==> id < s.nextId)
    && s.route == s.currentRuntime
  }

  predicate Settled(s: Session) {
    OneRuntime(s) && s.status != StatusBuilding
  }

  /** The two ways a rebuild may return: serving, or errored with nothing to serve. */
  predicate ServingOrErrored(s: Session) {
    || (s.status == StatusIdle && s.currentRuntime.Some? && s.route == s.currentRuntime)
    || (s.status == StatusErrored && s.currentRuntime.None? && s.route.None?)
  }

  predicate IsBroadcast(e: Effect) {
    e.BootFailed? || e.BuildStarted? || e.BuildCompleted? || e.BuildFailed?
  }

  lemma BroadcastKeepsRuntime(s: Session, e: Effect, status: BuildStatus)
    requires OneRuntime(s) && IsBroadcast(e)
    ensures OneRuntime(Log(s, e).(status := status))
  {
    LogOne(s, e);
  }

  lemma DiscardKeepsRuntime(s: Session)
    requires OneRuntime(s)
    ensures OneRuntime(Discard(s)) && Discard(s).currentRuntime.None?
  {
    if s.currentRuntime.Some? {
      LogOne(s, StopAttempted(s.currentRuntime.value));
    }
  }

  lemma CreateKeepsRuntime(s: Session)
    requires OneRuntime(s) && s.currentRuntime.None?
    ensures OneRuntime(Create(s)) && Create(s).currentRuntime.Some?
  {
    LogOne(s, RuntimeCreated(s.nextId));
  }

  lemma BeginStops(s: Session)
    requires Settled(s)
    ensures OneRuntime(Begin(s)) && Begin(s).currentRuntime.None?
  {
    BroadcastKeepsRuntime(s, BuildStarted, StatusBuilding);
    DiscardKeepsRuntime(Log(s, BuildStarted).(status := StatusBuilding));
  }

  /** How far a rebuild gets, by the first step that fails. */
  datatype Course = PublishFails | CreateFails | ProbeFails | LateFailure | RestartsUi | Completes

  function CourseOf(mode: DevMode, restartUi: bool, f: Faults): Course {
    if mode != WatchFramework && f.publish then PublishFails
    else if f.create then CreateFails
    else if f.probe then ProbeFails
    else if f.summary || (restartUi && mode != ApiOnly && f.uiSettings) then LateFailure
    else if restartUi && mode != ApiOnly then RestartsUi
    else Completes
  }

  /** Whatever fails: runtimes do not pile up, and a rebuild that ends by returning is serving or errored; one that
      awaits the UI is already serving. */
  lemma StartSettles(s: Session, mode: DevMode, restartUi: bool, f: Faults)
    requires Settled(s) && !s.isRestartingUi
    ensures var (t, progress) := StartRebuild(s, mode, restartUi, f);
      && Settled(t) && (t.isRestartingUi <==> progress == AwaitsUi)
      && (progress == Done(Returned) ==> ServingOrErrored(t))
      && (progress == Done(Threw) ==> t.status == StatusIdle)
      && (progress == AwaitsUi ==> t.status == StatusIdle && t.currentRuntime.Some?)
  {
    BeginStops(s);
    var begun := Begin(s);
    match CourseOf(mode, restartUi, f)
    case PublishFails => BroadcastKeepsRuntime(begun, BuildFailed, StatusIdle);
    case CreateFails => BroadcastKeepsRuntime(begun, BuildFailed, StatusErrored);
    case ProbeFails =>
      CreateKeepsRuntime(begun);
      BroadcastKeepsRuntime(Create(begun), BuildFailed, StatusBuilding);
      DiscardKeepsRuntime(Log(Create(begun), BuildFailed));
    case LateFailure =>
      CreateKeepsRuntime(begun);
      BroadcastKeepsRuntime(Create(begun), BuildFailed, StatusIdle);
    case RestartsUi => CreateKeepsRuntime(begun);
    case Completes =>
      CreateKeepsRuntime(begun);
      BroadcastKeepsRuntime(Create(begun), BuildCompleted, StatusIdle);
  }

  lemma EndSettles(s: Session, fails: bool)
    requires Settled(s)
    ensures var (t, ending) := EndUiRestart(s, fails);
      && Settled(t) && !t.isRestartingUi && t.currentRuntime == s.currentRuntime
      && (fails ==> ending == Threw && t.status == StatusIdle)
      && (!fails ==> ending == Returned && t.status == s.status)
  {
    var e := if fails then BuildFailed else BuildCompleted;
    BroadcastKeepsRuntime(s.(isRestartingUi := false), e, EndUiRestart(s, fails).0.status);
  }

  lemma RebuildSettles(s: Session, mode: DevMode, restartUi: bool, f: Faults)
    requires Settled(s) && !s.isRestartingUi
    ensures var (t, ending) := Rebuild(s, mode, restartUi, f);
      && Settled(t) && !t.isRestartingUi
      && (ending == Returned ==> ServingOrErrored(t)) && (ending == Threw ==> t.status == StatusIdle)
  {
    StartSettles(s, mode, restartUi, f);
    var (t, progress) := StartRebuild(s, mode, restartUi, f);
    if progress == AwaitsUi {
      EndSettles(t, f.uiRestart);
    }
  }

  function Starts(log: seq<Effect>): nat {
    if log == [] then 0 else Starts(log[..|log| - 1]) + if log[|log| - 1] == BuildStarted then 1 else 0
  }

  /** The session has broadcast `starts` starts, of which `open` are unanswered, and no answer came without a start. */
  predicate Announced(s: Session, open: nat, starts: nat) {
    Unanswered(s.log) == open && Starts(s.log) == starts
  }

  lemma AnnouncedOne(s: Session, e: Effect, open: nat, starts: nat)
    requires Announced(s, open, starts) && ((e == BuildCompleted || e == BuildFailed) ==> open > 0)
    ensures Announced(Log(s, e),
                      open + (if e == BuildStarted then 1
                              else if e == BuildCompleted || e == BuildFailed then -1 else 0),
                      starts + if e == BuildStarted then 1 else 0)
  {
    LogOne(s, e);
  }

  lemma DiscardAnswersNothing(s: Session, open: nat, starts: nat)
    requires Announced(s, open, starts)
    ensures Announced(Discard(s), open, starts)
  {
    if s.currentRuntime.Some? {
      AnnouncedOne(s, StopAttempted(s.currentRuntime.value), open, starts);
    }
  }

  lemma BeginAnnounces(s: Session, starts: nat)
    requires Announced(s, 0, starts)
    ensures Announced(Begin(s), 1, starts + 1)
  {
    AnnouncedOne(s, BuildStarted, 0, starts);
    DiscardAnswersNothing(Log(s, BuildStarted).(status := StatusBuilding), 1, starts + 1);
  }

  lemma CreateAnswersNothing(s: Session, open: nat, starts: nat)
    requires Announced(s, open, starts)
    ensures Announced(Create(s), open, starts)
  {
    AnnouncedOne(s, RuntimeCreated(s.nextId), open, starts);
  }

  lemma Answers(s: Session, e: Effect, status: BuildStatus, starts: nat)
    requires Announced(s, 1, starts) && (e == BuildCompleted || e == BuildFailed)
    ensures Announced(Log(s, e).(status := status), 0, starts)
  {
    AnnouncedOne(s, e, 1, starts);
  }

  lemma ProbeFailureAnswers(created: Session, starts: nat)
    requires Announced(created, 1, starts)
    ensures Announced(Discard(Log(created, BuildFailed)).(status := StatusErrored), 0, starts)
  {
    AnnouncedOne(created, BuildFailed, 1, starts);
    DiscardAnswersNothing(Log(created, BuildFailed), 0, starts);
  }

  /** A rebuild that awaits the UI has broadcast its start and no answer; one that has ended has answered. */
  lemma StartAnswers(s: Session, mode: DevMode, restartUi: bool, f: Faults, starts: nat)
    requires Announced(s, 0, starts)
    ensures var (t, progress) := StartRebuild(s, mode, restartUi, f);
      Announced(t, if progress == AwaitsUi then 1 else 0, starts + 1)
  {
    BeginAnnounces(s, starts);
    var begun, n := Begin(s), starts + 1;
    CreateAnswersNothing(begun, 1, n);
    match CourseOf(mode, restartUi, f)
    case PublishFails => Answers(begun, BuildFailed, StatusIdle, n);
    case CreateFails => Answers(begun, BuildFailed, StatusErrored, n);
    case ProbeFails => ProbeFailureAnswers(Create(begun), n);
    case LateFailure => Answers(Create(begun), BuildFailed, StatusIdle, n);
    case RestartsUi =>
    case Completes => Answers(Create(begun), BuildCompleted, StatusIdle, n);
  }

  lemma EndAnswers(s: Session, fails: bool, starts: nat)
    requires Announced(s, 1, starts)
    ensures Announced(EndUiRestart(s, fails).0, 0, starts)
  {
    var e := if fails then BuildFailed else BuildCompleted;
    Answers(s.(isRestartingUi := false), e, EndUiRestart(s, fails).0.status, starts);
  }

  /** A rebuild broadcasts one start, and one completion or failure after it, however it ends. */
  lemma RebuildAnswersOnce(s: Session, mode: DevMode, restartUi: bool, f: Faults, starts: nat)
    requires Announced(s, 0, starts)
    ensures Announced(Rebuild(s, mode, restartUi, f).0, 0, starts + 1)
  {
    StartAnswers(s, mode, restartUi, f, starts);
    var (t, progress) := StartRebuild(s, mode, restartUi, f);
    if progress == AwaitsUi {
      EndAnswers(t, f.uiRestart, starts + 1);
    }
  }

  // ---------------------------------------------------------------- whole sessions

  /** While a rebuild awaits the restart of the UI, everything but another rebuild can happen. */
  datatype Action =
    | DoRebuild(mode: DevMode, restartUi: bool, faults: Faults)
    | DoUiRestarted(fails: bool)
    | DoFailSession(stopFaults: StopFaults)
    | DoShutdown(stopFaults: StopFaults)
    | DoUiExit(cleanly: bool)

  predicate Possible(s: Session, a: Action) {
    && (a.DoRebuild? ==> !s.isRestartingUi)
    && (a.DoUiRestarted? ==> s.isRestartingUi)
  }

  function Act(s: Session, a: Action): Session {
    match a
    case DoRebuild(mode, restartUi, f) => StartRebuild(s, mode, restartUi, f).0
    case DoUiRestarted(fails) => EndUiRestart(s, fails).0
    case DoFailSession(f) => FailSession(s, f)
    case DoShutdown(f) => Shutdown(s, f)
    case DoUiExit(cleanly) => UiExits(s, cleanly)
  }

  function RunSession(s: Session, actions: seq<Action>): Session {
    if actions == [] then s else Act(RunSession(s, actions[..|actions| - 1]), actions[|actions| - 1])
  }

  predicate Valid(s: Session, actions: seq<Action>) {
    actions == [] ||
    (Valid(s, actions[..|actions| - 1]) && Possible(RunSession(s, actions[..|actions| - 1]), actions[|actions| - 1]))
  }

  /** Actions that stop the runtime. */
  predicate Stops(a: Action) {
    a.DoFailSession? || a.DoShutdown?
  }

  /** Whether the action ends a rebuild that returns. */
  predicate ReturnsFrom(s: Session, a: Action) {
    match a
    case DoRebuild(mode, restartUi, f) => StartRebuild(s, mode, restartUi, f).1 == Done(Returned)
    case DoUiRestarted(fails) => !fails
    case _ => false
  }

  /** Between actions; while the UI restarts, the rebuild is serving unless its runtime has been stopped. */
  predicate SettledSession(s: Session) {
    Settled(s) && (s.isRestartingUi ==> s.status == StatusIdle)
  }

  lemma ActSettles(s: Session, a: Action)
    requires SettledSession(s) && Possible(s, a)
    ensures SettledSession(Act(s, a))
    ensures Stops(a) ==> Act(s, a).currentRuntime.None? && Act(s, a).route.None?
    ensures ReturnsFrom(s, a) && (a.DoUiRestarted? ==> s.currentRuntime.Some?) ==> ServingOrErrored(Act(s, a))
  {
    match a
    case DoRebuild(mode, restartUi, f) => StartSettles(s, mode, restartUi, f);
    case DoUiRestarted(fails) => EndSettles(s, fails);
    case DoFailSession(f) => StopSettles(s, f);
    case DoShutdown(f) => StopSettles(s, f);
    case DoUiExit(_) =>
  }

  lemma StopSettles(s: Session, f: StopFaults)
    requires SettledSession(s)
    ensures SettledSession(StopAll(s.(stopRequested := true), f).0)
  {
    DiscardKeepsRuntime(s.(stopRequested := true));
  }

  /** The flag goes up when a rebuild awaits the UI and down when that ends; nothing else touches it. */
  lemma RestartFlag(s: Session, a: Action)
    requires Possible(s, a)
    ensures Act(s, a).isRestartingUi <==>
      match a
      case DoRebuild(mode, restartUi, f) => StartRebuild(s, mode, restartUi, f).1 == AwaitsUi
      case DoUiRestarted(_) => false
      case _ => s.isRestartingUi
  {
  }

  function Open(s: Session): nat {
    if s.isRestartingUi then 1 else 0
  }

  lemma StopAnswersNothing(s: Session, f: StopFaults, starts: nat)
    requires Announced(s, Open(s), starts)
    ensures Announced(StopAll(s.(stopRequested := true), f).0, Open(s), starts)
  {
    DiscardAnswersNothing(s.(stopRequested := true), Open(s), starts);
  }

  lemma ActAnswers(s: Session, a: Action, starts: nat)
    requires Announced(s, Open(s), starts) && Settled(s) && Possible(s, a)
    ensures Announced(Act(s, a), Open(Act(s, a)), starts + if a.DoRebuild? then 1 else 0)
  {
    match a
    case DoRebuild(mode, restartUi, f) =>
      StartSettles(s, mode, restartUi, f);
      StartAnswers(s, mode, restartUi, f, starts);
    case DoUiRestarted(fails) => EndAnswers(s, fails, starts);
    case DoFailSession(f) => StopAnswersNothing(s, f, starts);
    case DoShutdown(f) => StopAnswersNothing(s, f, starts);
    case DoUiExit(_) =>
  }

  function Rebuilds(actions: seq<Action>): nat {
    if actions == [] then 0
    else Rebuilds(actions[..|actions| - 1]) + if actions[|actions| - 1].DoRebuild? then 1 else 0
  }

  lemma BootSettles(createFails: bool)
    ensures SettledSession(Boot(NEW, createFails)) && ServingOrErrored(Boot(NEW, createFails))
    ensures Announced(Boot(NEW, createFails), 0, 0) && !Boot(NEW, createFails).isRestartingUi
  {
    assert Unstopped([]) == {};
    if createFails {
      BroadcastKeepsRuntime(NEW, BootFailed, StatusErrored);
      AnnouncedOne(NEW, BootFailed, 0, 0);
    } else {
      CreateKeepsRuntime(NEW);
      AnnouncedOne(NEW, RuntimeCreated(0), 0, 0);
    }
  }

  /**
   Over every session, whatever fails and in any order: a runtime is only created when a stop was attempted on all
   earlier ones, the runtime in use is the routed one, every rebuild was announced and answered exactly once, except for
   one that awaits the UI, and after a rebuild that returned the session is serving, or errored with nothing to serve,
   unless its runtime was stopped while it awaited the UI.
   */
  lemma {:induction false} SessionSettles(createFails: bool, actions: seq<Action>)
    requires Valid(Boot(NEW, createFails), actions)
    ensures var t := RunSession(Boot(NEW, createFails), actions);
      SettledSession(t) && Unanswered(t.log) == Open(t) && Starts(t.log) == Rebuilds(actions)
    ensures actions == [] ==> ServingOrErrored(Boot(NEW, createFails))
    ensures actions != [] ==>
      var before, last := RunSession(Boot(NEW, createFails), actions[..|actions| - 1]), actions[|actions| - 1];
      var t := RunSession(Boot(NEW, createFails), actions);
      && (ReturnsFrom(before, last) && (last.DoUiRestarted? ==> before.currentRuntime.Some?) ==> ServingOrErrored(t))
      && (Stops(last) ==> t.currentRuntime.None? && t.route.None?)
  {
    BootSettles(createFails);
    if actions != [] {
      var init, last := actions[..|actions| - 1], actions[|actions| - 1];
      SessionSettles(createFails, init);
      ActSettles(RunSession(Boot(NEW, createFails), init), last);
      ActAnswers(RunSession(Boot(NEW, createFails), init), last, Rebuilds(init));
    }
  }

  /** What can happen while the UI restarts. */
  predicate Interlude(actions: seq<Action>) {
    forall a :: a in actions ==> !a.DoRebuild? && !a.DoUiRestarted?
  }

  predicate AnyStops(actions: seq<Action>) {
    exists i :: 0 <= i < |actions| && Stops(actions[i])
  }

  lemma AnyStopsLast(init: seq<Action>, last: Action)
    ensures AnyStops(init + [last]) <==> AnyStops(init) || Stops(last)
  {
    var all := init + [last];
    assert all[|init|] == last && forall i :: 0 <= i < |init| ==> all[i] == init[i];
  }

  lemma {:induction false} RuntimeInInterlude(s: Session, actions: seq<Action>)
    requires s.isRestartingUi && s.status == StatusIdle && s.currentRuntime.Some? && Interlude(actions)
    ensures var t := RunSession(s, actions);
      && t.isRestartingUi && t.status == StatusIdle
      && (t.currentRuntime.None? <==> AnyStops(actions))
      && (t.stopRequested <==> s.stopRequested || AnyStops(actions))
  {
    if actions != [] {
      var init, last := actions[..|actions| - 1], actions[|actions| - 1];
      assert actions == init + [last] && last in actions;
      AnyStopsLast(init, last);
      RuntimeInInterlude(s, init);
    }
  }

  lemma {:induction false} RoutedInInterlude(s: Session, actions: seq<Action>)
    requires SettledSession(s) && s.isRestartingUi && Interlude(actions)
    ensures SettledSession(RunSession(s, actions)) && RunSession(s, actions).isRestartingUi
  {
    if actions != [] {
      var init, last := actions[..|actions| - 1], actions[|actions| - 1];
      assert last in actions && forall a :: a in init ==> a in actions;
      RoutedInInterlude(s, init);
      ActSettles(RunSession(s, init), last);
    }
  }

  /** A rebuild whose UI was restarted is serving exactly when nothing has stopped the session meanwhile; exits of the
      old UI do not matter. */
  lemma RestartedRebuildServes(s: Session, mode: DevMode, f: Faults, meanwhile: seq<Action>)
    requires SettledSession(s) && !s.isRestartingUi && StartRebuild(s, mode, true, f).1 == AwaitsUi
    requires Interlude(meanwhile)
    ensures var awaiting := RunSession(StartRebuild(s, mode, true, f).0, meanwhile);
      && Possible(awaiting, DoUiRestarted(false))
      && (ServingOrErrored(Act(awaiting, DoUiRestarted(false))) <==> !AnyStops(meanwhile))
      && (awaiting.stopRequested <==> s.stopRequested || AnyStops(meanwhile))
  {
    StartSettles(s, mode, true, f);
    var started := StartRebuild(s, mode, true, f).0;
    RuntimeInInterlude(started, meanwhile);
    RoutedInInterlude(started, meanwhile);
  }

  // ---------------------------------------------------------------- the right answer

  function StopOf(s: Session): seq<Effect> {
    if s.currentRuntime.Some? then [StopAttempted(s.currentRuntime.value)] else []
  }

  /** What is observed after the old runtime was stopped. */
  function Outcome(n: nat, course: Course): seq<Effect> {
    match course
    case PublishFails => [BuildFailed]
    case CreateFails => [BuildFailed]
    case ProbeFails => [RuntimeCreated(n), BuildFailed, StopAttempted(n)]
    case LateFailure => [RuntimeCreated(n), BuildFailed]
    case RestartsUi => [RuntimeCreated(n)]
    case Completes => [RuntimeCreated(n), BuildCompleted]
  }

  /** What can be observed of a rebuild, by how far it gets: its start, the stop of the old runtime, the new runtime if
      there is one, and a completion only when nothing failed. */
  function Observed(s: Session, course: Course): seq<Effect> {
    [BuildStarted] + StopOf(s) + Outcome(s.nextId, course)
  }

  lemma StartIsObserved(s: Session, mode: DevMode, restartUi: bool, f: Faults)
    ensures StartRebuild(s, mode, restartUi, f).0.log == s.log + Observed(s, CourseOf(mode, restartUi, f))
  {
    assert Begin(s).log == s.log + [BuildStarted] + StopOf(s) && Begin(s).nextId == s.nextId;
  }

  function Count(log: seq<Effect>, e: Effect): nat {
    if log == [] then 0 else Count(log[..|log| - 1], e) + if log[|log| - 1] == e then 1 else 0
  }

  lemma {:induction false} CountAppend(a: seq<Effect>, b: seq<Effect>, e: Effect)
    ensures Count(a + b, e) == Count(a, e) + Count(b, e)
  {
    if b == [] {
      assert a + b == a;
    } else {
      assert (a + b)[..|a + b| - 1] == a + b[..|b| - 1];
      CountAppend(a, b[..|b| - 1], e);
    }
  }

  lemma CountOne(x: Effect, e: Effect)
    ensures Count([x], e) == if x == e then 1 else 0
  {
    assert [x][..0] == [];
  }

  lemma CountTwo(x: Effect, y: Effect, e: Effect)
    ensures Count([x, y], e) == (if x == e then 1 else 0) + if y == e then 1 else 0
  {
    CountOne(x, e);
    CountOne(y, e);
    CountAppend([x], [y], e);
    assert [x] + [y] == [x, y];
  }

  lemma CountOutcome(n: nat, course: Course, e: Effect)
    requires e == BuildCompleted || e == BuildFailed
    ensures Count(Outcome(n, course), e) ==
      if course == RestartsUi then 0 else if (course == Completes) == (e == BuildCompleted) then 1 else 0
  {
    match course
    case PublishFails => CountOne(BuildFailed, e);
    case CreateFails => CountOne(BuildFailed, e);
    case ProbeFails =>
      CountTwo(RuntimeCreated(n), BuildFailed, e);
      CountOne(StopAttempted(n), e);
      CountAppend([RuntimeCreated(n), BuildFailed], [StopAttempted(n)], e);
      assert [RuntimeCreated(n), BuildFailed] + [StopAttempted(n)] == Outcome(n, course);
    case LateFailure => CountTwo(RuntimeCreated(n), BuildFailed, e);
    case RestartsUi => CountOne(RuntimeCreated(n), e);
    case Completes => CountTwo(RuntimeCreated(n), BuildCompleted, e);
  }

  lemma CountObserved(s: Session, course: Course, e: Effect)
    requires e == BuildCompleted || e == BuildFailed
    ensures Count(Observed(s, course), e) == Count(Outcome(s.nextId, course), e)
  {
    CountOne(BuildStarted, e);
    CountAppend([BuildStarted], StopOf(s), e);
    if s.currentRuntime.Some? {
      CountOne(StopAttempted(s.currentRuntime.value), e);
    }
    CountAppend([BuildStarted] + StopOf(s), Outcome(s.nextId, course), e);
  }

  /** The action ends a rebuild that is serving, so that it is answered with a completion. */
  predicate Succeeds(s: Session, a: Action) {
    ReturnsFrom(s, a) && Act(s, a).status == StatusIdle
  }

  /** The action ends a rebuild in any other way, so that it is answered with a failure. */
  predicate Breaks(s: Session, a: Action) {
    match a
    case DoRebuild(mode, restartUi, f) => StartRebuild(s, mode, restartUi, f).1.Done? && !Succeeds(s, a)
    case DoUiRestarted(fails) => fails
    case _ => false
  }

  lemma StartAnswersRightly(s: Session, mode: DevMode, restartUi: bool, f: Faults)
    ensures var a, t := DoRebuild(mode, restartUi, f), StartRebuild(s, mode, restartUi, f).0;
      && Count(t.log, BuildCompleted) == Count(s.log, BuildCompleted) + (if Succeeds(s, a) then 1 else 0)
      && Count(t.log, BuildFailed) == Count(s.log, BuildFailed) + (if Breaks(s, a) then 1 else 0)
  {
    var course := CourseOf(mode, restartUi, f);
    StartIsObserved(s, mode, restartUi, f);
    CountObserved(s, course, BuildCompleted);
    CountObserved(s, course, BuildFailed);
    CountOutcome(s.nextId, course, BuildCompleted);
    CountOutcome(s.nextId, course, BuildFailed);
    CountAppend(s.log, Observed(s, course), BuildCompleted);
    CountAppend(s.log, Observed(s, course), BuildFailed);
  }

  lemma DiscardCountsNothing(s: Session, e: Effect)
    requires e == BuildCompleted || e == BuildFailed
    ensures Count(Discard(s).log, e) == Count(s.log, e)
  {
    if s.currentRuntime.Some? {
      CountAppend(s.log, StopOf(s), e);
      CountOne(StopAttempted(s.currentRuntime.value), e);
    }
  }

  lemma EndAnswersRightly(s: Session, fails: bool, e: Effect)
    requires e == BuildCompleted || e == BuildFailed
    ensures Count(EndUiRestart(s, fails).0.log, e) == Count(s.log, e) + if fails == (e == BuildFailed) then 1 else 0
  {
    var x := if fails then BuildFailed else BuildCompleted;
    CountAppend(s.log, [x], e);
    CountOne(x, e);
  }

  lemma StopCountsNothing(s: Session, f: StopFaults, e: Effect)
    requires e == BuildCompleted || e == BuildFailed
    ensures Count(FailSession(s, f).log, e) == Count(s.log, e) && Count(Shutdown(s, f).log, e) == Count(s.log, e)
  {
    DiscardCountsNothing(s.(stopRequested := true), e);
  }

  lemma ActCounts(s: Session, a: Action, e: Effect)
    requires (e == BuildCompleted || e == BuildFailed) && !a.DoRebuild?
    ensures Count(Act(s, a).log, e) ==
      Count(s.log, e) + if a.DoUiRestarted? && a.fails == (e == BuildFailed) then 1 else 0
  {
    match a
    case DoUiRestarted(fails) => EndAnswersRightly(s, fails, e);
    case DoFailSession(f) => StopCountsNothing(s, f, e);
    case DoShutdown(f) => StopCountsNothing(s, f, e);
    case DoUiExit(_) =>
  }

  lemma ActAnswersRightly(s: Session, a: Action)
    requires SettledSession(s) && Possible(s, a)
    ensures Count(Act(s, a).log, BuildCompleted) == Count(s.log, BuildCompleted) + (if Succeeds(s, a) then 1 else 0)
    ensures Count(Act(s, a).log, BuildFailed) == Count(s.log, BuildFailed) + (if Breaks(s, a) then 1 else 0)
  {
    if a.DoRebuild? {
      StartAnswersRightly(s, a.mode, a.restartUi, a.faults);
    } else {
      ActCounts(s, a, BuildCompleted);
      ActCounts(s, a, BuildFailed);
    }
  }

  function Successes(createFails: bool, actions: seq<Action>): nat {
    if actions == [] then 0
    else
      var init := actions[..|actions| - 1];
      Successes(createFails, init)
      + if Succeeds(RunSession(Boot(NEW, createFails), init), actions[|actions| - 1]) then 1 else 0
  }

  function Failures(createFails: bool, actions: seq<Action>): nat {
    if actions == [] then 0
    else
      var init := actions[..|actions| - 1];
      Failures(createFails, init)
      + if Breaks(RunSession(Boot(NEW, createFails), init), actions[|actions| - 1]) then 1 else 0
  }

  /**
   Over every session: there is one build-completed broadcast for each rebuild that returned with the status idle, one
   build-failed broadcast for each that ended in any other way, and none otherwise.
   */
  lemma {:induction false} SessionAnswersRightly(createFails: bool, actions: seq<Action>)
    requires Valid(Boot(NEW, createFails), actions)
    ensures var log := RunSession(Boot(NEW, createFails), actions).log;
      && Count(log, BuildCompleted) == Successes(createFails, actions)
      && Count(log, BuildFailed) == Failures(createFails, actions)
      && Rebuilds(actions) ==
           Successes(createFails, actions) + Failures(createFails, actions)
           + Open(RunSession(Boot(NEW, createFails), actions))
  {
    if actions == [] {
      CountOne(RuntimeCreated(0), BuildCompleted);
      CountOne(RuntimeCreated(0), BuildFailed);
      CountOne(BootFailed, BuildCompleted);
      CountOne(BootFailed, BuildFailed);
      assert Boot(NEW, createFails).log == if createFails then [BootFailed] else [RuntimeCreated(0)];
    } else {
      var init, last := actions[..|actions| - 1], actions[|actions| - 1];
      var s := RunSession(Boot(NEW, createFails), init);
      SessionAnswersRightly(createFails, init);
      SessionSettles(createFails, init);
      ActAnswersRightly(s, last);
      EveryRebuildEnds(s, last);
    }
  }

  lemma EveryRebuildEnds(s: Session, a: Action)
    requires SettledSession(s) && Possible(s, a)
    ensures Open(Act(s, a)) + (if Succeeds(s, a) then 1 else 0) + (if Breaks(s, a) then 1 else 0) ==
      Open(s) + if a.DoRebuild? then 1 else 0
  {
    RestartFlag(s, a);
  }

  // ---------------------------------------------------------------- how a session ends

  /** The proxy, the children and the runtime, if there is one, can all be stopped. */
  predicate StopsCleanly(s: Session, f: StopFaults) {
    !(s.currentRuntime.Some? && f.runtime) && !f.children && !f.proxy
  }

  /** What an action makes of an unsettled stop promise in the state in which it runs. */
  function Settlement(s: Session, a: Action): StopPromise {
    match a
    case DoRebuild(_, _, _) => Unsettled
    case DoUiRestarted(_) => Unsettled
    case DoFailSession(f) => if StopsCleanly(s, f) then Rejected else Unsettled
    case DoShutdown(_) => Resolved
    case DoUiExit(cleanly) =>
      if s.stopRequested || s.isRestartingUi then Unsettled else if cleanly then Resolved else Rejected
  }

  function Before(createFails: bool, actions: seq<Action>, i: nat): Session
    requires i <= |actions|
  {
    RunSession(Boot(NEW, createFails), actions[..i])
  }

  /** Action `i` is the first of the list that settles the promise. */
  predicate SettlesFirst(createFails: bool, actions: seq<Action>, i: nat)
    requires i < |actions|
  {
    && Settlement(Before(createFails, actions, i), actions[i]) != Unsettled
    && forall j :: 0 <= j < i ==> Settlement(Before(createFails, actions, j), actions[j]) == Unsettled
  }

  lemma ActSettlesPromise(s: Session, a: Action)
    ensures Act(s, a).stopPromise == if s.stopPromise == Unsettled then Settlement(s, a) else s.stopPromise
  {
  }

  lemma EarlierState(createFails: bool, init: seq<Action>, last: Action, i: nat)
    requires i <= |init|
    ensures Before(createFails, init + [last], i) == Before(createFails, init, i)
  {
    assert (init + [last])[..i] == init[..i];
  }

  /** One more action at the end changes nothing about the earlier ones. */
  lemma EarlierActions(createFails: bool, init: seq<Action>, last: Action)
    ensures forall i :: 0 <= i < |init| ==> Before(createFails, init + [last], i) == Before(createFails, init, i)
    ensures forall i :: 0 <= i < |init| ==>
      (SettlesFirst(createFails, init + [last], i) <==> SettlesFirst(createFails, init, i))
  {
    var all := init + [last];
    forall i | 0 <= i < |init|
      ensures all[i] == init[i] && Before(createFails, all, i) == Before(createFails, init, i)
    {
      EarlierState(createFails, init, last, i);
    }
  }

  lemma LastState(createFails: bool, init: seq<Action>, last: Action)
    ensures Before(createFails, init + [last], |init|) == RunSession(Boot(NEW, createFails), init)
  {
    assert (init + [last])[..|init|] == init;
  }

  /** `p` is the settlement by the first action that settles anything, if there is one. */
  predicate SettledBy(createFails: bool, actions: seq<Action>, p: StopPromise) {
    if p == Unsettled then
      forall i :: 0 <= i < |actions| ==> Settlement(Before(createFails, actions, i), actions[i]) == Unsettled
    else
      exists i :: 0 <= i < |actions| && SettlesFirst(createFails, actions, i)
                  && p == Settlement(Before(createFails, actions, i), actions[i])
  }

  lemma SettledByOneMore(createFails: bool, init: seq<Action>, last: Action, p: StopPromise)
    requires SettledBy(createFails, init, p)
    ensures SettledBy(createFails, init + [last],
                      if p == Unsettled then Settlement(RunSession(Boot(NEW, createFails), init), last) else p)
  {
    var all := init + [last];
    EarlierActions(createFails, init, last);
    LastState(createFails, init, last);
    assert all[|init|] == last && forall i :: 0 <= i < |init| ==> all[i] == init[i];
    if p == Unsettled {
      if Settlement(RunSession(Boot(NEW, createFails), init), last) != Unsettled {
        assert SettlesFirst(createFails, all, |init|);
      }
    } else {
      var i :| 0 <= i < |init| && SettlesFirst(createFails, init, i)
               && p == Settlement(Before(createFails, init, i), init[i]);
      assert SettlesFirst(createFails, all, i);
    }
  }

  /** The stop promise is open as long as no action settles it, and the first action that does decides. */
  lemma {:induction false} FirstSettlementCounts(createFails: bool, actions: seq<Action>)
    ensures SettledBy(createFails, actions, RunSession(Boot(NEW, createFails), actions).stopPromise)
  {
    if actions != [] {
      var init, last := actions[..|actions| - 1], actions[|actions| - 1];
      var s := RunSession(Boot(NEW, createFails), init);
      FirstSettlementCounts(createFails, init);
      SettledByOneMore(createFails, init, last, s.stopPromise);
      ActSettlesPromise(s, last);
      assert init + [last] == actions;
    }
  }

  /** Failed sessions and signals request a stop, and so does a UI that exits when it is not being restarted. */
  predicate RequestsStop(s: Session, a: Action) {
    Stops(a) || (a.DoUiExit? && !s.isRestartingUi)
  }

  lemma ActRequestsStop(s: Session, a: Action)
    ensures Act(s, a).stopRequested <==> s.stopRequested || RequestsStop(s, a)
  {
  }

  predicate AsksToStop(createFails: bool, actions: seq<Action>) {
    exists j :: 0 <= j < |actions| && RequestsStop(Before(createFails, actions, j), actions[j])
  }

  lemma AsksToStopLast(createFails: bool, init: seq<Action>, last: Action)
    ensures AsksToStop(createFails, init + [last]) <==>
      AsksToStop(createFails, init) || RequestsStop(RunSession(Boot(NEW, createFails), init), last)
  {
    var all := init + [last];
    EarlierActions(createFails, init, last);
    LastState(createFails, init, last);
    assert all[|init|] == last && forall j :: 0 <= j < |init| ==> all[j] == init[j];
  }

  lemma {:induction false} StopIsRequested(createFails: bool, actions: seq<Action>)
    ensures RunSession(Boot(NEW, createFails), actions).stopRequested <==> AsksToStop(createFails, actions)
  {
    if actions != [] {
      var init, last := actions[..|actions| - 1], actions[|actions| - 1];
      StopIsRequested(createFails, init);
      ActRequestsStop(RunSession(Boot(NEW, createFails), init), last);
      AsksToStopLast(createFails, init, last);
      assert init + [last] == actions;
    }
  }

  /** What leaves the promise open: rebuilds, failed sessions whose stop fails too, and exits of a UI that is being
      restarted or follow a requested stop. */
  predicate LeavesOpen(createFails: bool, actions: seq<Action>, i: nat)
    requires i < |actions|
  {
    match actions[i]
    case DoRebuild(_, _, _) => true
    case DoUiRestarted(_) => true
    case DoFailSession(f) => !StopsCleanly(Before(createFails, actions, i), f)
    case DoShutdown(_) => false
    case DoUiExit(_) => Before(createFails, actions, i).isRestartingUi || AsksToStop(createFails, actions[..i])
  }

  lemma OpenActionSettlesNothing(createFails: bool, actions: seq<Action>, i: nat)
    requires i < |actions|
    ensures LeavesOpen(createFails, actions, i) <==>
      Settlement(Before(createFails, actions, i), actions[i]) == Unsettled
  {
    StopIsRequested(createFails, actions[..i]);
  }

  /** Action `i` is the first that does not leave the promise open. */
  predicate EndsSession(createFails: bool, actions: seq<Action>, i: nat)
    requires i < |actions|
  {
    !LeavesOpen(createFails, actions, i) && forall j :: 0 <= j < i ==> LeavesOpen(createFails, actions, j)
  }

  lemma EndingSettlesFirst(createFails: bool, actions: seq<Action>, i: nat)
    requires i < |actions|
    ensures EndsSession(createFails, actions, i) <==> SettlesFirst(createFails, actions, i)
  {
    forall j | 0 <= j <= i
      ensures LeavesOpen(createFails, actions, j) <==>
        Settlement(Before(createFails, actions, j), actions[j]) == Unsettled
    {
      OpenActionSettlesNothing(createFails, actions, j);
    }
  }

  /**
   The command keeps waiting exactly when nothing but such actions happened. In particular, a session that failed and
   could not be stopped waits on until a later failure can be stopped, or a signal arrives.
   */
  lemma SessionStaysOpen(createFails: bool, actions: seq<Action>)
    ensures RunSession(Boot(NEW, createFails), actions).stopPromise == Unsettled <==>
      forall i :: 0 <= i < |actions| ==> LeavesOpen(createFails, actions, i)
  {
    FirstSettlementCounts(createFails, actions);
    forall i | 0 <= i < |actions|
      ensures LeavesOpen(createFails, actions, i) <==>
        Settlement(Before(createFails, actions, i), actions[i]) == Unsettled
    {
      OpenActionSettlesNothing(createFails, actions, i);
    }
  }

  /** What the command ends with: a failed session and a broken UI reject, a signal and a clean exit resolve. */
  function EndOf(a: Action): StopPromise {
    if a.DoFailSession? || a == DoUiExit(false) then Rejected else Resolved
  }

  /** The first action that does not leave the promise open settles it, and nothing after that changes it. */
  lemma SessionEndsWith(createFails: bool, actions: seq<Action>, i: nat)
    requires i < |actions| && EndsSession(createFails, actions, i)
    ensures RunSession(Boot(NEW, createFails), actions).stopPromise == EndOf(actions[i])
  {
    EndingSettlesFirst(createFails, actions, i);
    FirstSettlementCounts(createFails, actions);
    var p := RunSession(Boot(NEW, createFails), actions).stopPromise;
    var k :| 0 <= k < |actions| && SettlesFirst(createFails, actions, k)
             && p == Settlement(Before(createFails, actions, k), actions[k]);
    assert k == i;
  }

  /** The command fails exactly when its session is ended by a failure whose stop succeeds, or by a broken UI. */
  lemma FailedSessionRejects(createFails: bool, actions: seq<Action>)
    ensures RunSession(Boot(NEW, createFails), actions).stopPromise == Rejected <==>
      exists i :: 0 <= i < |actions| && EndsSession(createFails, actions, i) && EndOf(actions[i]) == Rejected
  {
    var p := RunSession(Boot(NEW, createFails), actions).stopPromise;
    if i :| 0 <= i < |actions| && EndsSession(createFails, actions, i) {
      SessionEndsWith(createFails, actions, i);
      forall k | 0 <= k < |actions| && EndsSession(createFails, actions, k) ensures k == i {
        assert !(k < i) && !(i < k);
      }
    } else {
      FirstSettlementCounts(createFails, actions);
      if p != Unsettled {
        var k :| 0 <= k < |actions| && SettlesFirst(createFails, actions, k);
        EndingSettlesFirst(createFails, actions, k);
        assert false;
      }
    }
  }

  // ---------------------------------------------------------------- the command object

  class DevCommandSession {
    var currentRuntime: Option<nat>
    var route: Option<nat>
    var status: BuildStatus
    var isRestartingUi: bool
    var stopRequested: bool
    var stopPromise: StopPromise
    var nextId: nat
    var log: seq<Effect>

    constructor ()
      ensures Fields() == NEW
    {
      currentRuntime, route, status := None, None, StatusIdle;
      isRestartingUi, stopRequested, stopPromise := false, false, Unsettled;
      nextId, log := 0, [];
    }

    function Fields(): Session
      reads this
    {
      Session(currentRuntime, route, status, isRestartingUi, stopRequested, stopPromise, nextId, log)
    }

    method BootInitialRuntime(createFails: bool)
      modifies this
      ensures Fields() == Boot(old(Fields()), createFails)
    {
      if createFails {
        log := log + [BootFailed];
        status := StatusErrored;
        return;
      }
      var runtime := CreateRuntime();
      currentRuntime := Some(runtime);
      route := Some(runtime);
      status := StatusIdle;
    }

    method CreateRuntime() returns (runtime: nat)
      modifies `nextId, `log
      ensures runtime == old(nextId) && nextId == runtime + 1 && log == old(log) + [RuntimeCreated(runtime)]
    {
      runtime := nextId;
      nextId := nextId + 1;
      log := log + [RuntimeCreated(runtime)];
    }

    /** One rebuild during which nothing else happens. */
    method RunQueuedRebuild(mode: DevMode, shouldRestartUi: bool, faults: Faults) returns (ending: Ending)
      requires !isRestartingUi
      modifies this
      ensures (Fields(), ending) == Rebuild(old(Fields()), mode, shouldRestartUi, faults)
    {
      var progress := RunToUiRestart(mode, shouldRestartUi, faults);
      if progress.Done? {
        return progress.ending;
      }
      ending := FinishUiRestart(faults.uiRestart);
    }

    /** A rebuild up to its end or the await of the UI restart. A step that fails ends it in the `catch` block around
        it. */
    method RunToUiRestart(mode: DevMode, shouldRestartUi: bool, faults: Faults) returns (progress: Progress)
      requires !isRestartingUi
      modifies this
      ensures (Fields(), progress) == StartRebuild(old(Fields()), mode, shouldRestartUi, faults)
      ensures log == old(log) + Observed(old(Fields()), CourseOf(mode, shouldRestartUi, faults))
    {
      StartIsObserved(Fields(), mode, shouldRestartUi, faults);
      BeginRebuild();
      if mode != WatchFramework && faults.publish {
        FailRebuild();
        return Done(Threw);
      }
      if faults.create {
        log := log + [BuildFailed];
        status := StatusErrored;
        return Done(Returned);
      }
      StartRuntime();
      if faults.probe {
        log := log + [BuildFailed];
        status := StatusErrored;
        DiscardRuntime();
        return Done(Returned);
      }
      if faults.summary {
        FailRebuild();
        return Done(Threw);
      }
      status := StatusIdle;
      if shouldRestartUi && mode != ApiOnly {
        var began := BeginUiRestart(faults.uiSettings);
        if !began {
          FailRebuild();
          return Done(Threw);
        }
        return AwaitsUi;
      }
      log := log + [BuildCompleted];
      return Done(Returned);
    }

    method BeginRebuild()
      modifies this
      ensures Fields() == Begin(old(Fields()))
    {
      status := StatusBuilding;
      log := log + [BuildStarted];
      DiscardRuntime();
    }

    /** The runtime, if any, is unrouted and asked to stop; whether stopping it fails is ignored. */
    method DiscardRuntime()
      modifies this
      ensures Fields() == Discard(old(Fields()))
    {
      if currentRuntime.Some? {
        var previous := currentRuntime.value;
        currentRuntime := None;
        route := None;
        log := log + [StopAttempted(previous)];
      }
    }

    method StartRuntime()
      modifies this
      ensures Fields() == Create(old(Fields()))
    {
      var runtime := CreateRuntime();
      currentRuntime := Some(runtime);
      route := Some(runtime);
    }

    method FailRebuild()
      modifies `status, `log
      ensures status == StatusIdle && log == old(log) + [BuildFailed]
    {
      status := StatusIdle;
      log := log + [BuildFailed];
    }

    /** The flag goes up only once the UI is really going to be replaced. */
    method BeginUiRestart(settingsFail: bool) returns (began: bool)
      requires !isRestartingUi
      modifies `isRestartingUi
      ensures isRestartingUi == began == !settingsFail
    {
      if settingsFail {
        return false;
      }
      isRestartingUi := true;
      return true;
    }

    /** The `finally` block takes the flag down however the restart ends, and the rebuild ends with it. */
    method FinishUiRestart(fails: bool) returns (ending: Ending)
      modifies `isRestartingUi, `status, `log
      ensures !isRestartingUi && (Fields(), ending) == EndUiRestart(old(Fields()), fails)
    {
      isRestartingUi := false;
      if fails {
        FailRebuild();
        return Threw;
      }
      log := log + [BuildCompleted];
      return Returned;
    }

    method StopLiveProcesses(faults: StopFaults) returns (ending: Ending)
      modifies `currentRuntime, `route, `log
      ensures (Fields(), ending) == StopAll(old(Fields()), faults)
    {
      var runtime := currentRuntime;
      currentRuntime := None;
      route := None;
      if runtime.Some? {
        log := log + [StopAttempted(runtime.value)];
        if faults.runtime { return Threw; }
      }
      if faults.children { return Threw; }
      if faults.proxy { return Threw; }
      return Returned;
    }

    method FailDevSession(faults: StopFaults)
      modifies this
      ensures Fields() == FailSession(old(Fields()), faults)
    {
      stopRequested := true;
      var ending := StopLiveProcesses(faults);
      if ending == Threw { return; }
      SettleStopPromise(Rejected);
    }

    /** The handler of a signal, up to the exit of the process. */
    method RunShutdown(faults: StopFaults)
      modifies this
      ensures Fields() == Shutdown(old(Fields()), faults)
    {
      stopRequested := true;
      var ending := StopLiveProcesses(faults);
      SettleStopPromise(Resolved);
    }

    method OnUiExited(cleanly: bool)
      modifies `stopRequested, `stopPromise
      ensures Fields() == UiExits(old(Fields()), cleanly)
    {
      if stopRequested || isRestartingUi { return; }
      stopRequested := true;
      SettleStopPromise(if cleanly then Resolved else Rejected);
    }

    /** A promise is settled once. */
    method SettleStopPromise(outcome: StopPromise)
      modifies `stopPromise
      ensures Fields() == Settle(old(Fields()), outcome)
    {
      if stopPromise == Unsettled {
        stopPromise := outcome;
      }
    }
  }
}

/**
 The rebuild queue and the dev session together: each rebuild that the queue starts is performed by the session, and the
 queue goes on when it has ended. Anything else may happen to the session in between. That the queue never starts a
 rebuild while another one is in flight is what makes the theorems about sessions apply.
 */
module DevLoop {
  import opened Wrappers
  import Q = DevRebuildQueue
  import S = DevSession

  /** What the rebuild in flight, if there is one, is waiting for. */
  datatype Phase = NoRebuild | ToPerform | AwaitingUi | Performed(failed: bool)

  /** The steps of the queue and the actions of the session so far. */
  datatype Loop = Loop(queued: seq<Q.Step>, actions: seq<S.Action>, phase: Phase)

  const START := Loop([], [], NoRebuild)

  datatype Step =
    | Request(request: Q.Request)
    | Perform(faults: S.Faults)
    | UiRestarted(fails: bool)
    | RunReturns
    | Outside(action: S.Action)

  function Session(createFails: bool, l: Loop): S.Session {
    S.RunSession(S.Boot(S.NEW, createFails), l.actions)
  }

  predicate Enabled(l: Loop, step: Step) {
    && Q.Valid(l.queued)
    && match step
       case Request(_) => true
       case Perform(_) => l.phase == ToPerform && Q.Run(l.queued).running != []
       case UiRestarted(_) => l.phase == AwaitingUi
       case RunReturns => l.phase.Performed? && Q.Run(l.queued).running != []
       case Outside(a) => !a.DoRebuild? && !a.DoUiRestarted?
  }

  /** The queue takes a step; when it starts a rebuild, that is to be performed. */
  function Queue(l: Loop, step: Q.Step, otherwise: Phase): Loop
    requires Q.Valid(l.queued) && Q.Enabled(Q.Run(l.queued), step)
  {
    var queued := l.queued + [step];
    assert queued[..|queued| - 1] == l.queued;
    l.(queued := queued,
       phase := if |Q.Run(queued).started| > |Q.Run(l.queued).started| then ToPerform else otherwise)
  }

  function Next(createFails: bool, mode: S.DevMode, l: Loop, step: Step): Loop
    requires Enabled(l, step)
  {
    match step
    case Request(request) => Queue(l, Q.Enqueue(request), l.phase)
    case Perform(f) =>
      var restartUi := Q.Run(l.queued).running[0].shouldRestartUi;
      l.(actions := l.actions + [S.DoRebuild(mode, restartUi, f)],
         phase := match S.StartRebuild(Session(createFails, l), mode, restartUi, f).1
                  case Done(ending) => Performed(ending == S.Threw)
                  case AwaitsUi => AwaitingUi)
    case UiRestarted(fails) => l.(actions := l.actions + [S.DoUiRestarted(fails)], phase := Performed(fails))
    case RunReturns => Queue(l, Q.RunEnds(0, l.phase.failed), NoRebuild)
    case Outside(a) => l.(actions := l.actions + [a])
  }

  predicate Valid(createFails: bool, mode: S.DevMode, steps: seq<Step>)
    decreases |steps|, 0
  {
    steps == [] ||
    (&& Valid(createFails, mode, steps[..|steps| - 1])
     && Enabled(Run(createFails, mode, steps[..|steps| - 1]), steps[|steps| - 1]))
  }

  function Run(createFails: bool, mode: S.DevMode, steps: seq<Step>): Loop
    requires Valid(createFails, mode, steps)
    decreases |steps|, 1
  {
    if steps == [] then START
    else Next(createFails, mode, Run(createFails, mode, steps[..|steps| - 1]), steps[|steps| - 1])
  }

  // ---------------------------------------------------------------- the session's rebuilds are those of the queue

  /** For every rebuild of the session, whether it was to restart the UI. */
  function Flags(actions: seq<S.Action>): seq<bool> {
    if actions == [] then []
    else
      Flags(actions[..|actions| - 1]) +
      if actions[|actions| - 1].DoRebuild? then [actions[|actions| - 1].restartUi] else []
  }

  function Wishes(rebuilds: seq<Q.Request>): seq<bool> {
    seq(|rebuilds|, k requires 0 <= k < |rebuilds| => rebuilds[k].shouldRestartUi)
  }

  /** The session has performed the rebuilds of the queue in order, except for one that has just been started. */
  predicate InStep(l: Loop)
    requires Q.Valid(l.queued)
  {
    var s := Q.Run(l.queued);
    if l.phase == ToPerform then
      s.running != [] && Wishes(s.started) == Flags(l.actions) + [s.running[0].shouldRestartUi]
    else Wishes(s.started) == Flags(l.actions)
  }

  predicate Inv(createFails: bool, l: Loop) {
    && Q.Valid(l.queued) && (l.phase == NoRebuild <==> Q.Run(l.queued).running == []) && InStep(l)
    && S.Valid(S.Boot(S.NEW, createFails), l.actions)
    && (Session(createFails, l).isRestartingUi <==> l.phase == AwaitingUi)
  }

  lemma OneMoreAction(createFails: bool, actions: seq<S.Action>, a: S.Action)
    requires S.Valid(S.Boot(S.NEW, createFails), actions)
    requires S.Possible(S.RunSession(S.Boot(S.NEW, createFails), actions), a)
    ensures S.Valid(S.Boot(S.NEW, createFails), actions + [a])
    ensures S.RunSession(S.Boot(S.NEW, createFails), actions + [a]) ==
      S.Act(S.RunSession(S.Boot(S.NEW, createFails), actions), a)
    ensures Flags(actions + [a]) == Flags(actions) + if a.DoRebuild? then [a.restartUi] else []
  {
    assert (actions + [a])[..|actions|] == actions;
  }

  lemma QueueKeepsInv(createFails: bool, l: Loop, step: Q.Step, otherwise: Phase)
    requires Inv(createFails, l) && Q.Enabled(Q.Run(l.queued), step)
    requires if step.Enqueue? then otherwise == l.phase else l.phase.Performed? && otherwise == NoRebuild
    ensures Inv(createFails, Queue(l, step, otherwise))
  {
    Q.StepStarts(l.queued, step);
    var s, t := Q.Run(l.queued), Q.Run(l.queued + [step]);
    if |t.started| != |s.started| {
      assert Wishes(t.started) == Wishes(s.started) + [t.running[0].shouldRestartUi];
    }
  }

  /** An action that is possible in the session, with a phase that fits it. */
  lemma ActionKeepsInv(createFails: bool, l: Loop, a: S.Action, phase: Phase)
    requires Inv(createFails, l) && S.Possible(Session(createFails, l), a)
    requires l.phase != NoRebuild <==> phase != NoRebuild
    requires if a.DoRebuild? then l.phase == ToPerform && a.restartUi == Q.Run(l.queued).running[0].shouldRestartUi
             else l.phase == ToPerform <==> phase == ToPerform
    requires a.DoRebuild? ==> phase != ToPerform
    requires S.Act(Session(createFails, l), a).isRestartingUi <==> phase == AwaitingUi
    ensures Inv(createFails, l.(actions := l.actions + [a], phase := phase))
  {
    OneMoreAction(createFails, l.actions, a);
  }

  lemma StepKeepsInv(createFails: bool, mode: S.DevMode, l: Loop, step: Step)
    requires Inv(createFails, l) && Enabled(l, step)
    ensures Inv(createFails, Next(createFails, mode, l, step))
  {
    var s, t := Session(createFails, l), Next(createFails, mode, l, step);
    match step
    case Request(request) => QueueKeepsInv(createFails, l, Q.Enqueue(request), l.phase);
    case RunReturns => QueueKeepsInv(createFails, l, Q.RunEnds(0, l.phase.failed), NoRebuild);
    case Perform(f) =>
      var a := S.DoRebuild(mode, Q.Run(l.queued).running[0].shouldRestartUi, f);
      S.RestartFlag(s, a);
      ActionKeepsInv(createFails, l, a, t.phase);
    case UiRestarted(fails) =>
      S.RestartFlag(s, S.DoUiRestarted(fails));
      ActionKeepsInv(createFails, l, S.DoUiRestarted(fails), t.phase);
    case Outside(a) =>
      S.RestartFlag(s, a);
      ActionKeepsInv(createFails, l, a, t.phase);
  }

  /**
   Over every run of queue and session: the queue takes steps that it can take, the session a list of actions that it
   can take, so that no rebuild begins before the one before it has ended, and the session performs the rebuilds of the
   queue, each once and in order.
   */
  lemma {:induction false} LoopIsASession(createFails: bool, mode: S.DevMode, steps: seq<Step>)
    requires Valid(createFails, mode, steps)
    ensures Inv(createFails, Run(createFails, mode, steps))
  {
    if steps != [] {
      LoopIsASession(createFails, mode, steps[..|steps| - 1]);
      StepKeepsInv(createFails, mode, Run(createFails, mode, steps[..|steps| - 1]), steps[|steps| - 1]);
    }
  }

  // ---------------------------------------------------------------- and nothing else is made up or dropped

  function Asked(steps: seq<Step>): seq<Q.Request> {
    if steps == [] then []
    else Asked(steps[..|steps| - 1]) + if steps[|steps| - 1].Request? then [steps[|steps| - 1].request] else []
  }

  function Outsides(steps: seq<Step>): seq<S.Action> {
    if steps == [] then []
    else Outsides(steps[..|steps| - 1]) + if steps[|steps| - 1].Outside? then [steps[|steps| - 1].action] else []
  }

  predicate OfRebuild(a: S.Action) {
    a.DoRebuild? || a.DoUiRestarted?
  }

  function Others(actions: seq<S.Action>): seq<S.Action> {
    if actions == [] then []
    else
      Others(actions[..|actions| - 1]) + if OfRebuild(actions[|actions| - 1]) then [] else [actions[|actions| - 1]]
  }

  /** For every rebuild that the queue has seen return, whether it failed. */
  function Returns(queued: seq<Q.Step>): seq<bool> {
    if queued == [] then []
    else
      Returns(queued[..|queued| - 1]) +
      if queued[|queued| - 1].RunEnds? then [queued[|queued| - 1].failed] else []
  }

  /** For every rebuild of the session that has ended, whether it threw. */
  function Thrown(createFails: bool, actions: seq<S.Action>): seq<bool> {
    if actions == [] then []
    else
      var init := actions[..|actions| - 1];
      Thrown(createFails, init) +
      match actions[|actions| - 1]
      case DoRebuild(mode, restartUi, f) =>
        var progress := S.StartRebuild(S.RunSession(S.Boot(S.NEW, createFails), init), mode, restartUi, f).1;
        if progress.Done? then [progress.ending == S.Threw] else []
      case DoUiRestarted(fails) => [fails]
      case _ => []
  }

  /** The queue knows every request and how every rebuild ended; the session knows every outside action. */
  predicate Records(createFails: bool, steps: seq<Step>, l: Loop) {
    && Q.Requests(l.queued) == Asked(steps) && Others(l.actions) == Outsides(steps)
    && Thrown(createFails, l.actions) == Returns(l.queued) + if l.phase.Performed? then [l.phase.failed] else []
  }

  lemma QueueRecords(l: Loop, step: Q.Step, otherwise: Phase)
    requires Q.Valid(l.queued) && Q.Enabled(Q.Run(l.queued), step)
    ensures var t := Queue(l, step, otherwise);
      && Q.Requests(t.queued) == Q.Requests(l.queued) + (if step.Enqueue? then [step.request] else [])
      && Returns(t.queued) == Returns(l.queued) + (if step.RunEnds? then [step.failed] else [])
      && t.actions == l.actions && (t.phase == otherwise || t.phase == ToPerform)
  {
    assert (l.queued + [step])[..|l.queued|] == l.queued;
  }

  lemma ActionRecords(createFails: bool, actions: seq<S.Action>, a: S.Action)
    ensures Others(actions + [a]) == Others(actions) + if OfRebuild(a) then [] else [a]
    ensures Thrown(createFails, actions + [a]) == Thrown(createFails, actions) +
      match a
      case DoRebuild(mode, restartUi, f) =>
        (var progress := S.StartRebuild(S.RunSession(S.Boot(S.NEW, createFails), actions), mode, restartUi, f).1;
         if progress.Done? then [progress.ending == S.Threw] else [])
      case DoUiRestarted(fails) => [fails]
      case _ => []
  {
    assert (actions + [a])[..|actions|] == actions;
  }

  lemma StepsLast(init: seq<Step>, step: Step)
    ensures Asked(init + [step]) == Asked(init) + if step.Request? then [step.request] else []
    ensures Outsides(init + [step]) == Outsides(init) + if step.Outside? then [step.action] else []
  {
    assert (init + [step])[..|init|] == init;
  }

  lemma RequestRecords(createFails: bool, init: seq<Step>, l: Loop, r: Q.Request)
    requires Inv(createFails, l) && Records(createFails, init, l)
    ensures Records(createFails, init + [Request(r)], Queue(l, Q.Enqueue(r), l.phase))
  {
    StepsLast(init, Request(r));
    QueueRecords(l, Q.Enqueue(r), l.phase);
    RequestStartsOnlyIdle(createFails, l, r);
  }

  lemma ReturnRecords(createFails: bool, init: seq<Step>, l: Loop)
    requires Inv(createFails, l) && Enabled(l, RunReturns) && Records(createFails, init, l)
    ensures Records(createFails, init + [RunReturns], Queue(l, Q.RunEnds(0, l.phase.failed), NoRebuild))
  {
    StepsLast(init, RunReturns);
    QueueRecords(l, Q.RunEnds(0, l.phase.failed), NoRebuild);
  }

  lemma PerformRecords(createFails: bool, mode: S.DevMode, init: seq<Step>, l: Loop, f: S.Faults)
    requires Enabled(l, Perform(f)) && Records(createFails, init, l)
    ensures Records(createFails, init + [Perform(f)], Next(createFails, mode, l, Perform(f)))
  {
    StepsLast(init, Perform(f));
    ActionRecords(createFails, l.actions, S.DoRebuild(mode, Q.Run(l.queued).running[0].shouldRestartUi, f));
  }

  lemma UiRecords(createFails: bool, init: seq<Step>, l: Loop, fails: bool)
    requires Records(createFails, init, l) && l.phase == AwaitingUi
    ensures Records(createFails, init + [UiRestarted(fails)],
                    l.(actions := l.actions + [S.DoUiRestarted(fails)], phase := Performed(fails)))
  {
    StepsLast(init, UiRestarted(fails));
    ActionRecords(createFails, l.actions, S.DoUiRestarted(fails));
  }

  lemma OutsideRecords(createFails: bool, init: seq<Step>, l: Loop, a: S.Action)
    requires Records(createFails, init, l) && !OfRebuild(a)
    ensures Records(createFails, init + [Outside(a)], l.(actions := l.actions + [a]))
  {
    StepsLast(init, Outside(a));
    ActionRecords(createFails, l.actions, a);
  }

  lemma StepRecords(createFails: bool, mode: S.DevMode, init: seq<Step>, l: Loop, step: Step)
    requires Inv(createFails, l) && Enabled(l, step) && Records(createFails, init, l)
    ensures Records(createFails, init + [step], Next(createFails, mode, l, step))
  {
    match step
    case Request(r) => RequestRecords(createFails, init, l, r);
    case RunReturns => ReturnRecords(createFails, init, l);
    case Perform(f) => PerformRecords(createFails, mode, init, l, f);
    case UiRestarted(fails) => UiRecords(createFails, init, l, fails);
    case Outside(a) => OutsideRecords(createFails, init, l, a);
  }

  lemma RequestStartsOnlyIdle(createFails: bool, l: Loop, r: Q.Request)
    requires Inv(createFails, l)
    ensures l.phase != NoRebuild ==> Queue(l, Q.Enqueue(r), l.phase).phase == l.phase
    ensures l.phase == NoRebuild ==> Queue(l, Q.Enqueue(r), l.phase).phase == ToPerform
  {
    var queued := l.queued + [Q.Enqueue(r)];
    assert queued[..|queued| - 1] == l.queued;
    Q.OneRebuildAtATime(l.queued);
  }

  /** Over every run: no request, no outside action and no ending of a rebuild is made up, dropped or reordered. */
  lemma {:induction false} NothingIsMadeUp(createFails: bool, mode: S.DevMode, steps: seq<Step>)
    requires Valid(createFails, mode, steps)
    ensures Records(createFails, steps, Run(createFails, mode, steps))
  {
    if steps != [] {
      var init, step := steps[..|steps| - 1], steps[|steps| - 1];
      NothingIsMadeUp(createFails, mode, init);
      LoopIsASession(createFails, mode, init);
      StepRecords(createFails, mode, init, Run(createFails, mode, init), step);
      assert init + [step] == steps;
    }
  }

  /** When no rebuild is in flight, every request has been performed after it was made, with its UI restart. */
  lemma RequestsArePerformed(
    createFails: bool, mode: S.DevMode, steps: seq<Step>, init: seq<Q.Step>, r: Q.Request, rest: seq<Q.Step>)
    returns (at: nat)
    requires Valid(createFails, mode, steps) && Run(createFails, mode, steps).phase == NoRebuild
    requires Run(createFails, mode, steps).queued == init + [Q.Enqueue(r)] + rest
    ensures var l := Run(createFails, mode, steps);
      && Q.Valid(init) && |Q.Run(init).started| <= at < |Flags(l.actions)|
      && (r.shouldRestartUi ==> Flags(l.actions)[at])
  {
    var l := Run(createFails, mode, steps);
    LoopIsASession(createFails, mode, steps);
    Q.OneRebuildAtATime(l.queued);
    var to;
    at, to := Q.RequestIsServedLater(init, r, rest);
    assert Q.Handed(Q.Run(l.queued)) == Q.Run(l.queued).started;
    assert Wishes(Q.Run(l.queued).started)[at] == Q.Run(l.queued).started[at].shouldRestartUi;
  }

  /** A rebuild in flight is never stuck: it is waiting for one of its own steps. */
  lemma RebuildsGoOn(createFails: bool, mode: S.DevMode, steps: seq<Step>) returns (step: Step)
    requires Valid(createFails, mode, steps) && Run(createFails, mode, steps).phase != NoRebuild
    ensures Enabled(Run(createFails, mode, steps), step) && !step.Request? && !step.Outside?
  {
    LoopIsASession(createFails, mode, steps);
    match Run(createFails, mode, steps).phase
    case ToPerform => step := Perform(S.Faults(false, false, false, false, false, false));
    case AwaitingUi => step := UiRestarted(false);
    case Performed(_) => step := RunReturns;
  }
}

/**
 The timer that calls `onIdle` when a tab has been hidden for a while, and `onActive` when it is visible again.

 The browser is part of the state: the clock, whether the tab is hidden and since when, and the timeouts that have
 been set and neither fired nor been cleared. A timeout fires at its deadline or later.
 */
module IdleTimer {
  import opened Wrappers

  /** A callback, with the time and what the document reports at that moment. */
  datatype Call = OnIdle(at: int, hidden: bool, toggledAt: int) | OnActive(at: int, hidden: bool)

  /** `calls` lists the callbacks of the current session, or of the last one when stopped. */
  datatype State = State(
    now: int,
    hidden: bool,
    toggledAt: int,
    timeouts: map<nat, int>,
    nextId: nat,
    pendingIdleTimeoutId: Option<nat>,
    hasFiredIdle: bool,
    started: bool,
    calls: seq<Call>
  )

  /** `Repeat` is a visibility event after which the tab is as it was before. */
  datatype Step =
    | Start
    | Stop
    | Toggle
    | Repeat
    | Fire(id: nat)
    | Pass(time: nat)

  function ClearTimeout(s: State): State {
    if s.pendingIdleTimeoutId.None? then s
    else s.(timeouts := s.timeouts - {s.pendingIdleTimeoutId.value}, pendingIdleTimeoutId := None)
  }

  /** The listener of the visibility event. */
  function HandleVisibilityChange(idleMs: nat, s: State): State {
    if s.hidden then
      s.(timeouts := s.timeouts[s.nextId := s.now + idleMs],
         pendingIdleTimeoutId := Some(s.nextId), nextId := s.nextId + 1)
    else if s.pendingIdleTimeoutId.Some? then ClearTimeout(s)
    else if s.hasFiredIdle then s.(hasFiredIdle := false, calls := s.calls + [OnActive(s.now, s.hidden)])
    else s
  }

  predicate Enabled(s: State, step: Step) {
    step.Fire? ==> step.id in s.timeouts && s.timeouts[step.id] <= s.now
  }

  function Next(idleMs: nat, s: State, step: Step): State
    requires Enabled(s, step)
  {
    match step
    case Start => if s.started then s else s.(started := true, calls := [])
    case Stop => if !s.started then s else ClearTimeout(s).(started := false, hasFiredIdle := false)
    case Toggle =>
      var toggled := s.(hidden := !s.hidden, toggledAt := s.now);
      if s.started then HandleVisibilityChange(idleMs, toggled) else toggled
    case Repeat => if s.started then HandleVisibilityChange(idleMs, s) else s
    case Fire(id) =>
      s.(timeouts := s.timeouts - {id}, pendingIdleTimeoutId := None, hasFiredIdle := true,
         calls := s.calls + [OnIdle(s.now, s.hidden, s.toggledAt)])
    case Pass(time) => s.(now := s.now + time)
  }

  predicate Fresh(s: State) {
    && s.timeouts == map[] && s.pendingIdleTimeoutId.None? && !s.hasFiredIdle && !s.started
    && s.calls == [] && s.toggledAt <= s.now
  }

  /** onIdle and onActive take turns, onIdle first; onIdle comes when the tab has been hidden for `idleMs` since it was
      last toggled, and onActive when it is visible. */
  predicate TakesTurns(idleMs: nat, calls: seq<Call>) {
    && (forall i :: 0 <= i < |calls| ==> (calls[i].OnIdle? <==> i % 2 == 0))
    && (forall i :: 0 <= i < |calls| && calls[i].OnIdle? ==>
          calls[i].hidden && calls[i].at >= calls[i].toggledAt + idleMs)
    && (forall i :: 0 <= i < |calls| && calls[i].OnActive? ==> !calls[i].hidden)
  }

  predicate Inv(idleMs: nat, s: State) {
    && TakesTurns(idleMs, s.calls)
    && s.toggledAt <= s.now
    && (forall id :: id in s.timeouts ==> s.pendingIdleTimeoutId == Some(id) && id < s.nextId)
    && (s.pendingIdleTimeoutId.Some? ==>
          && s.started && s.hidden && !s.hasFiredIdle
          && s.pendingIdleTimeoutId.value in s.timeouts
          && s.timeouts[s.pendingIdleTimeoutId.value] >= s.toggledAt + idleMs)
    && (s.hasFiredIdle ==> s.started && s.hidden)
    && (s.started ==> (s.hasFiredIdle <==> |s.calls| % 2 == 1))
  }

  /** A repeated hidden event in a session whose timeout is pending or has fired. */
  predicate Harmful(s: State, step: Step) {
    step.Repeat? && s.started && s.hidden && (s.pendingIdleTimeoutId.Some? || s.hasFiredIdle)
  }

  lemma StepKeepsInv(idleMs: nat, s: State, step: Step)
    requires Inv(idleMs, s) && Enabled(s, step)
    ensures Inv(idleMs, Next(idleMs, s, step)) <==> !Harmful(s, step)
    ensures !s.started ==> Next(idleMs, s, step).calls == (if step.Start? then [] else s.calls)
  {
    var t := Next(idleMs, s, step);
    if Harmful(s, step) {
      assert s.pendingIdleTimeoutId.Some? ==> s.pendingIdleTimeoutId.value in t.timeouts;
    }
  }

  predicate Valid(idleMs: nat, s: State, steps: seq<Step>)
    decreases |steps|, 0
  {
    steps == [] ||
    (Valid(idleMs, s, steps[..|steps| - 1]) && Enabled(Run(idleMs, s, steps[..|steps| - 1]), steps[|steps| - 1]))
  }

  function Run(idleMs: nat, s: State, steps: seq<Step>): State
    requires Valid(idleMs, s, steps)
    decreases |steps|, 1
  {
    if steps == [] then s else Next(idleMs, Run(idleMs, s, steps[..|steps| - 1]), steps[|steps| - 1])
  }

  /** No step of the run is harmful in the state in which it happens. */
  predicate Calm(idleMs: nat, s: State, steps: seq<Step>)
    requires Valid(idleMs, s, steps)
    decreases |steps|
  {
    steps == [] ||
    (&& Calm(idleMs, s, steps[..|steps| - 1])
     && !Harmful(Run(idleMs, s, steps[..|steps| - 1]), steps[|steps| - 1]))
  }

  /** In particular, runs in which the tab is hidden and shown in turn are calm. */
  lemma {:induction false} AlternatingRunsAreCalm(idleMs: nat, s: State, steps: seq<Step>)
    requires Valid(idleMs, s, steps) && forall step :: step in steps ==> !step.Repeat?
    ensures Calm(idleMs, s, steps)
  {
    if steps != [] {
      AlternatingRunsAreCalm(idleMs, s, steps[..|steps| - 1]);
    }
  }

  lemma {:induction false} RunKeepsInv(idleMs: nat, s: State, steps: seq<Step>)
    requires Inv(idleMs, s) && Valid(idleMs, s, steps) && Calm(idleMs, s, steps)
    ensures Inv(idleMs, Run(idleMs, s, steps))
  {
    if steps != [] {
      RunKeepsInv(idleMs, s, steps[..|steps| - 1]);
      StepKeepsInv(idleMs, Run(idleMs, s, steps[..|steps| - 1]), steps[|steps| - 1]);
    }
  }

  /**
   Over every calm run: in each session the callbacks take turns, every onIdle follows `idleMs` of uninterrupted hidden
   time, at most one timeout is live and it is the recorded one, and a stopped timer has none.
   */
  lemma IdleCyclesAlternate(idleMs: nat, s: State, steps: seq<Step>)
    requires Fresh(s) && Valid(idleMs, s, steps) && Calm(idleMs, s, steps)
    ensures var t := Run(idleMs, s, steps);
      && TakesTurns(idleMs, t.calls)
      && (forall id :: id in t.timeouts <==> t.pendingIdleTimeoutId == Some(id))
      && (!t.started ==> t.timeouts == map[])
  {
    RunKeepsInv(idleMs, s, steps);
    var t := Run(idleMs, s, steps);
    assert Inv(idleMs, t);
    if !t.started {
      assert t.timeouts.Keys == {};
    }
  }

  lemma {:induction false} StoppedStaysSilent(idleMs: nat, s: State, steps: seq<Step>)
    requires Inv(idleMs, s) && !s.started && Valid(idleMs, s, steps) && forall step :: step in steps ==> !step.Start?
    ensures Run(idleMs, s, steps).calls == s.calls && !Run(idleMs, s, steps).started && Calm(idleMs, s, steps)
  {
    if steps != [] {
      var init := steps[..|steps| - 1];
      StoppedStaysSilent(idleMs, s, init);
      RunKeepsInv(idleMs, s, init);
      StepKeepsInv(idleMs, Run(idleMs, s, init), steps[|steps| - 1]);
    }
  }

  // ---------------------------------------------------------------- sessions begin, work and end

  lemma StartsAndStops(idleMs: nat, s: State)
    requires Inv(idleMs, s)
    ensures Next(idleMs, s, Start).started && (!s.started ==> Next(idleMs, s, Start).calls == [])
    ensures s.started ==> Next(idleMs, s, Start) == s
    ensures var t := Next(idleMs, s, Stop); !t.started && t.timeouts == map[] && t.calls == s.calls && !t.hasFiredIdle
    ensures var t := Next(idleMs, s, Toggle);
      && t.hidden == !s.hidden && t.toggledAt == s.now && t.started == s.started
      && (!s.started ==> t.timeouts == s.timeouts && t.calls == s.calls)
  {
    var t := Next(idleMs, s, Stop);
    assert t.timeouts.Keys == {};
  }

  /** Nothing is called from a stop on, until the next start. */
  lemma NothingAfterStop(idleMs: nat, s: State, rest: seq<Step>)
    requires Inv(idleMs, s) && Valid(idleMs, Next(idleMs, s, Stop), rest)
    requires forall step :: step in rest ==> !step.Start?
    ensures Run(idleMs, Next(idleMs, s, Stop), rest).calls == s.calls
  {
    StartsAndStops(idleMs, s);
    StepKeepsInv(idleMs, s, Stop);
    StoppedStaysSilent(idleMs, Next(idleMs, s, Stop), rest);
  }

  /** In a session, a tab that is hidden for the idle time does go idle: its timeout can fire and calls onIdle. */
  lemma HiddenTabGoesIdle(idleMs: nat, s: State, wait: nat) returns (id: nat)
    requires Inv(idleMs, s) && s.started && !s.hidden && wait >= idleMs
    ensures var t := Next(idleMs, Next(idleMs, s, Toggle), Pass(wait));
      && Enabled(t, Fire(id))
      && Next(idleMs, t, Fire(id)).calls == s.calls + [OnIdle(s.now + wait, true, s.now)]
      && Next(idleMs, t, Fire(id)).hasFiredIdle
  {
    id := s.nextId;
  }

  /** And it goes active when it is shown again, or never goes idle if it is shown in time. */
  lemma ShownTabGoesActive(idleMs: nat, s: State)
    requires Inv(idleMs, s) && s.started && s.hidden
    ensures var t := Next(idleMs, s, Toggle);
      && t.calls == s.calls + (if s.hasFiredIdle then [OnActive(s.now, false)] else [])
      && t.timeouts == map[] && !t.hasFiredIdle
  {
    assert Next(idleMs, s, Toggle).timeouts.Keys == {};
  }

  // ---------------------------------------------------------------- which repeated events do harm

  lemma OneMoreStep(idleMs: nat, s: State, steps: seq<Step>, step: Step)
    requires Valid(idleMs, s, steps) && Enabled(Run(idleMs, s, steps), step)
    ensures Valid(idleMs, s, steps + [step])
    ensures Run(idleMs, s, steps + [step]) == Next(idleMs, Run(idleMs, s, steps), step)
  {
    assert (steps + [step])[..|steps|] == steps;
  }

  lemma FiresAfter(idleMs: nat, s: State, steps: seq<Step>, id: nat) returns (more: seq<Step>)
    requires Valid(idleMs, s, steps) && id in Run(idleMs, s, steps).timeouts
    requires forall step :: step in steps ==> !step.Repeat?
    ensures Valid(idleMs, s, more) && forall step :: step in more ==> !step.Repeat?
    ensures var t, u := Run(idleMs, s, steps), Run(idleMs, s, more);
      && |u.calls| == |t.calls| + 1 && u.calls[|t.calls|].OnIdle?
      && (forall i :: 0 <= i < |t.calls| ==> u.calls[i] == t.calls[i])
      && u.timeouts == t.timeouts - {id}
  {
    var t := Run(idleMs, s, steps);
    var wait: nat := if t.timeouts[id] > t.now then t.timeouts[id] - t.now else 0;
    var waited := steps + [Pass(wait)];
    OneMoreStep(idleMs, s, steps, Pass(wait));
    OneMoreStep(idleMs, s, waited, Fire(id));
    more := waited + [Fire(id)];
    FiringCallsIdle(idleMs, t.(now := t.now + wait), id);
    assert Run(idleMs, s, waited) == t.(now := t.now + wait);
  }

  lemma FiringCallsIdle(idleMs: nat, s: State, id: nat)
    requires Enabled(s, Fire(id))
    ensures var t := Next(idleMs, s, Fire(id));
      && |t.calls| == |s.calls| + 1 && t.calls[|s.calls|].OnIdle? && t.timeouts == s.timeouts - {id}
      && (forall i :: 0 <= i < |s.calls| ==> t.calls[i] == s.calls[i])
  {
  }

  lemma HarmShows(idleMs: nat, s: State) returns (steps: seq<Step>)
    requires Inv(idleMs, s) && Harmful(s, Repeat)
    ensures Valid(idleMs, Next(idleMs, s, Repeat), steps) && forall step :: step in steps ==> !step.Repeat?
    ensures !TakesTurns(idleMs, Run(idleMs, Next(idleMs, s, Repeat), steps).calls)
  {
    var t := Next(idleMs, s, Repeat);
    if s.pendingIdleTimeoutId.Some? {
      var first := FiresAfter(idleMs, t, [], s.pendingIdleTimeoutId.value);
      steps := FiresAfter(idleMs, t, first, s.nextId);
      var calls := Run(idleMs, t, steps).calls;
      assert calls[|s.calls|].OnIdle? && calls[|s.calls| + 1].OnIdle?;
    } else {
      steps := FiresAfter(idleMs, t, [], s.nextId);
      assert Run(idleMs, t, steps).calls[|s.calls|].OnIdle?;
    }
  }

  /**
   A repeated visibility event does harm exactly when the session's timeout is pending or has fired in a hidden tab:
   then some continuation calls onIdle twice in a row, and otherwise every calm continuation takes turns.
   */
  lemma RepeatedEventHarms(idleMs: nat, s: State)
    requires Inv(idleMs, s)
    ensures Harmful(s, Repeat) <==>
      exists steps ::
        && Valid(idleMs, Next(idleMs, s, Repeat), steps) && Calm(idleMs, Next(idleMs, s, Repeat), steps)
        && !TakesTurns(idleMs, Run(idleMs, Next(idleMs, s, Repeat), steps).calls)
  {
    var t := Next(idleMs, s, Repeat);
    if Harmful(s, Repeat) {
      var steps := HarmShows(idleMs, s);
      AlternatingRunsAreCalm(idleMs, t, steps);
    } else {
      StepKeepsInv(idleMs, s, Repeat);
      forall steps | Valid(idleMs, t, steps) && Calm(idleMs, t, steps)
        ensures TakesTurns(idleMs, Run(idleMs, t, steps).calls)
      {
        RunKeepsInv(idleMs, t, steps);
      }
    }
  }

  // ---------------------------------------------------------------- the hidden time before onIdle, in the run itself

  lemma {:induction false} ValidPrefix(idleMs: nat, s: State, steps: seq<Step>, n: nat)
    requires Valid(idleMs, s, steps) && n <= |steps|
    ensures Valid(idleMs, s, steps[..n])
  {
    if n < |steps| {
      ValidPrefix(idleMs, s, steps[..|steps| - 1], n);
      assert steps[..|steps| - 1][..n] == steps[..n];
    } else {
      assert steps[..n] == steps;
    }
  }

  /** The tab is hidden from `n` steps into the run on, whatever else happens. */
  predicate HiddenFrom(idleMs: nat, s: State, steps: seq<Step>, n: nat) {
    n <= |steps| && forall k :: n <= k <= |steps| ==> Valid(idleMs, s, steps[..k]) && Run(idleMs, s, steps[..k]).hidden
  }

  /** While a timeout is pending, the tab has been hidden since a state from which its deadline is at least `idleMs`
      away. */
  lemma {:induction false} PendingSince(idleMs: nat, s: State, steps: seq<Step>) returns (n: nat)
    requires Fresh(s) && Valid(idleMs, s, steps) && Calm(idleMs, s, steps)
    requires Run(idleMs, s, steps).pendingIdleTimeoutId.Some?
    ensures HiddenFrom(idleMs, s, steps, n)
    ensures var t := Run(idleMs, s, steps);
      t.pendingIdleTimeoutId.value in t.timeouts
      && t.timeouts[t.pendingIdleTimeoutId.value] >= Run(idleMs, s, steps[..n]).now + idleMs
  {
    var init, step := steps[..|steps| - 1], steps[|steps| - 1];
    RunKeepsInv(idleMs, s, init);
    if step.Toggle? || step.Repeat? {
      StepArms(idleMs, Run(idleMs, s, init), step);
      assert steps[..|steps|] == steps;
      n := |steps|;
    } else {
      StepKeepsPending(idleMs, Run(idleMs, s, init), step);
      n := PendingSince(idleMs, s, init);
      HiddenLonger(idleMs, s, init, step, n);
      assert steps == init + [step] && steps[..n] == init[..n];
    }
  }

  lemma StepArms(idleMs: nat, s: State, step: Step)
    requires Inv(idleMs, s) && Enabled(s, step) && !Harmful(s, step) && (step.Toggle? || step.Repeat?)
    requires Next(idleMs, s, step).pendingIdleTimeoutId.Some?
    ensures var t := Next(idleMs, s, step);
      t.hidden && t.pendingIdleTimeoutId.value in t.timeouts
      && t.timeouts[t.pendingIdleTimeoutId.value] == t.now + idleMs
  {
  }

  lemma StepKeepsPending(idleMs: nat, s: State, step: Step)
    requires Inv(idleMs, s) && Enabled(s, step) && !step.Toggle? && !step.Repeat?
    requires Next(idleMs, s, step).pendingIdleTimeoutId.Some?
    ensures var t := Next(idleMs, s, step);
      && t.hidden && s.pendingIdleTimeoutId == t.pendingIdleTimeoutId && t.timeouts == s.timeouts
      && t.toggledAt == s.toggledAt
  {
  }

  lemma HiddenLonger(idleMs: nat, s: State, init: seq<Step>, step: Step, n: nat)
    requires HiddenFrom(idleMs, s, init, n) && Valid(idleMs, s, init + [step])
    requires Run(idleMs, s, init + [step]).hidden
    ensures HiddenFrom(idleMs, s, init + [step], n)
  {
    var steps := init + [step];
    forall k | n <= k <= |steps| ensures Valid(idleMs, s, steps[..k]) && Run(idleMs, s, steps[..k]).hidden {
      if k < |steps| {
        assert steps[..k] == init[..k];
      } else {
        assert steps[..k] == steps;
      }
    }
  }

  /** Whenever a step calls onIdle, the tab has been hidden throughout a stretch of the run that lasted `idleMs`. */
  lemma IdleFollowsHiddenTime(idleMs: nat, s: State, steps: seq<Step>, step: Step, call: Call) returns (n: nat)
    requires Fresh(s) && Valid(idleMs, s, steps) && Calm(idleMs, s, steps)
    requires Enabled(Run(idleMs, s, steps), step) && call.OnIdle?
    requires Next(idleMs, Run(idleMs, s, steps), step).calls == Run(idleMs, s, steps).calls + [call]
    ensures HiddenFrom(idleMs, s, steps, n)
    ensures call.at == Run(idleMs, s, steps).now >= Run(idleMs, s, steps[..n]).now + idleMs
  {
    var before := Run(idleMs, s, steps);
    RunKeepsInv(idleMs, s, steps);
    OnlyFiringCallsIdle(idleMs, before, step, call);
    n := PendingSince(idleMs, s, steps);
  }

  lemma OnlyFiringCallsIdle(idleMs: nat, s: State, step: Step, call: Call)
    requires Enabled(s, step) && call.OnIdle? && Next(idleMs, s, step).calls == s.calls + [call]
    ensures step.Fire? && call.at == s.now
  {
    assert (s.calls + [call])[|s.calls|] == call;
  }

  // ---------------------------------------------------------------- the timer object

  /** The object, with the parts of the document and the window that it uses. */
  class PageVisibilityIdleTimer {
    const idleMs: nat
    var pendingIdleTimeoutId: Option<nat>
    var hasFiredIdle: bool
    var started: bool
    var now: int
    var hidden: bool
    var toggledAt: int
    var timeouts: map<nat, int>
    var nextId: nat
    var calls: seq<Call>

    constructor (idleMs: nat, now: int, hidden: bool)
      ensures this.idleMs == idleMs && Fresh(Fields()) && this.hidden == hidden
    {
      this.idleMs := idleMs;
      pendingIdleTimeoutId, hasFiredIdle, started := None, false, false;
      this.now, this.hidden, toggledAt := now, hidden, now;
      timeouts, nextId, calls := map[], 0, [];
    }

    function Fields(): State
      reads this
    {
      State(now, hidden, toggledAt, timeouts, nextId, pendingIdleTimeoutId, hasFiredIdle, started, calls)
    }

    method StartListening()
      modifies this
      ensures Fields() == Next(idleMs, old(Fields()), Start)
    {
      if started { return; }
      started := true;
      calls := [];
    }

    method StopListening()
      modifies this
      ensures Fields() == Next(idleMs, old(Fields()), Stop)
    {
      if !started { return; }
      started := false;
      if pendingIdleTimeoutId.Some? {
        timeouts := timeouts - {pendingIdleTimeoutId.value};
        pendingIdleTimeoutId := None;
      }
      hasFiredIdle := false;
    }

    /** A visibility event of the document, and the listener if it is attached. */
    method OnVisibilityEvent(nowHidden: bool)
      modifies this
      ensures Fields() == Next(idleMs, old(Fields()), if nowHidden == old(hidden) then Repeat else Toggle)
    {
      if nowHidden != hidden {
        hidden := nowHidden;
        toggledAt := now;
      }
      if started {
        HandleVisibility();
      }
    }

    method HandleVisibility()
      modifies this
      ensures Fields() == HandleVisibilityChange(idleMs, old(Fields()))
    {
      if hidden {
        timeouts := timeouts[nextId := now + idleMs];
        pendingIdleTimeoutId := Some(nextId);
        nextId := nextId + 1;
      } else if pendingIdleTimeoutId.Some? {
        timeouts := timeouts - {pendingIdleTimeoutId.value};
        pendingIdleTimeoutId := None;
      } else if hasFiredIdle {
        hasFiredIdle := false;
        calls := calls + [OnActive(now, hidden)];
      }
    }

    method OnTimeout(id: nat)
      requires Enabled(Fields(), Fire(id))
      modifies this
      ensures Fields() == Next(idleMs, old(Fields()), Fire(id))
    {
      timeouts := timeouts - {id};
      pendingIdleTimeoutId := None;
      hasFiredIdle := true;
      calls := calls + [OnIdle(now, hidden, toggledAt)];
    }
  }
}

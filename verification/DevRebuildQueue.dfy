/**
 The rebuild queue of a dev session: requests that arrive while a rebuild runs are merged into one, which runs next.

 `running` holds the rebuilds in flight; that there is never more than one is what the dev session relies on.
 */
module DevRebuildQueue {
  import opened Wrappers

  datatype Request = Request(changedPaths: seq<string>, configPathOverride: Option<string>, shouldRestartUi: bool)

  function Members(s: seq<string>): set<string> {
    set x | x in s
  }

  predicate NoRepeats(s: seq<string>) {
    forall i, j :: 0 <= i < j < |s| ==> s[i] != s[j]
  }

  /** The elements in order of first occurrence, as a JavaScript Set lists them. */
  function Distinct(s: seq<string>): (r: seq<string>)
    ensures Members(r) == Members(s) && NoRepeats(r)
  {
    if s == [] then []
    else
      var init, x := s[..|s| - 1], s[|s| - 1];
      assert s == init + [x] && Members(s) == Members(init) + {x};
      assert x in Distinct(init) <==> x in Members(Distinct(init));
      assert Members(Distinct(init) + [x]) == Members(Distinct(init)) + {x};
      if x in Distinct(init) then Distinct(init) else Distinct(init) + [x]
  }

  function Merge(current: Option<Request>, next: Request): Request {
    match current
    case None => next
    case Some(c) => Request(
      Distinct(c.changedPaths + next.changedPaths),
      if next.configPathOverride.Some? then next.configPathOverride else c.configPathOverride,
      c.shouldRestartUi || next.shouldRestartUi)
  }

  /** Where an element occurs first. */
  function FirstAt(s: seq<string>, x: string): (i: nat)
    requires x in s
    ensures i < |s| && s[i] == x && x !in s[..i]
  {
    if s[0] == x then 0
    else
      assert s[1..][..FirstAt(s[1..], x)] == s[1..FirstAt(s[1..], x) + 1];
      assert s[..FirstAt(s[1..], x) + 1] == [s[0]] + s[1..FirstAt(s[1..], x) + 1];
      FirstAt(s[1..], x) + 1
  }

  lemma {:induction false} FirstInFront(s: seq<string>, t: seq<string>, x: string)
    requires x in s
    ensures FirstAt(s + t, x) == FirstAt(s, x)
  {
    assert (s + t)[0] == s[0];
    if s[0] != x {
      assert (s + t)[1..] == s[1..] + t;
      FirstInFront(s[1..], t, x);
    }
  }

  predicate InOrderOf(r: seq<string>, s: seq<string>) {
    forall i, j :: 0 <= i < j < |r| ==> r[i] in s && r[j] in s && FirstAt(s, r[i]) < FirstAt(s, r[j])
  }

  lemma AppendInOrder(r: seq<string>, s: seq<string>, x: string)
    requires InOrderOf(r, s) && forall y :: y in r ==> y in s
    ensures InOrderOf(r, s + [x])
    ensures x !in s ==> InOrderOf(r + [x], s + [x])
  {
    forall y | y in r ensures y in s + [x] && FirstAt(s + [x], y) == FirstAt(s, y) < |s| {
      FirstInFront(s, [x], y);
    }
    assert forall i :: 0 <= i < |r| ==> (r + [x])[i] == r[i] && r[i] in r;
    if x !in s {
      assert FirstAt(s + [x], x) == |s|;
    }
  }

  /** The paths that are left are in the order in which they came first. */
  lemma {:induction false} DistinctInOrder(s: seq<string>)
    ensures InOrderOf(Distinct(s), s)
  {
    if s != [] {
      var init, x := s[..|s| - 1], s[|s| - 1];
      DistinctInOrder(init);
      assert s == init + [x];
      forall y ensures y in Distinct(init) <==> y in init {
        assert y in Members(Distinct(init)) <==> y in Members(init);
      }
      AppendInOrder(Distinct(init), init, x);
    }
  }

  /** So the paths of the waiting request come before those that only the new one has. */
  lemma MergedInOrder(current: Request, next: Request)
    ensures InOrderOf(Merge(Some(current), next).changedPaths, current.changedPaths + next.changedPaths)
  {
    DistinctInOrder(current.changedPaths + next.changedPaths);
  }

  // ---------------------------------------------------------------- the queue as a state machine

  /** `started` lists every rebuild started so far. */
  datatype State = State(pending: Option<Request>, draining: bool, running: seq<Request>, started: seq<Request>)

  const EMPTY := State(None, false, [], [])

  datatype Step = Enqueue(request: Request) | RunEnds(run: nat, failed: bool)

  /** The drain loop at its test: it starts the pending request, or ends. */
  function Drain(s: State): State {
    if s.pending.None? then s.(draining := false)
    else State(None, true, s.running + [s.pending.value], s.started + [s.pending.value])
  }

  predicate Enabled(s: State, step: Step) {
    step.RunEnds? ==> step.run < |s.running|
  }

  /** A failed run leaves through `finally`, which starts a new drain when a request is pending. */
  function Next(s: State, step: Step): State
    requires Enabled(s, step)
  {
    match step
    case Enqueue(request) =>
      var merged := s.(pending := Some(Merge(s.pending, request)));
      if s.draining then merged else Drain(merged)
    case RunEnds(i, failed) => Drain(s.(running := s.running[..i] + s.running[i + 1..]))
  }

  predicate Valid(steps: seq<Step>)
    decreases |steps|, 0
  {
    steps == [] || (Valid(steps[..|steps| - 1]) && Enabled(Run(steps[..|steps| - 1]), steps[|steps| - 1]))
  }

  function Run(steps: seq<Step>): State
    requires Valid(steps)
    decreases |steps|, 1
  {
    if steps == [] then EMPTY else Next(Run(steps[..|steps| - 1]), steps[|steps| - 1])
  }

  predicate SingleFlight(s: State) {
    |s.running| <= 1 && (s.draining <==> |s.running| == 1) && (s.pending.Some? ==> |s.running| == 1)
  }

  /** Never two rebuilds in flight, and a request waits only behind a running rebuild. */
  lemma {:induction false} OneRebuildAtATime(steps: seq<Step>)
    requires Valid(steps)
    ensures SingleFlight(Run(steps))
  {
    if steps != [] {
      OneRebuildAtATime(steps[..|steps| - 1]);
    }
  }

  /** The rebuild in flight is the one that was started last. */
  lemma {:induction false} LastStartedRuns(steps: seq<Step>)
    requires Valid(steps)
    ensures var s := Run(steps); s.running != [] ==> s.started != [] && s.running == [s.started[|s.started| - 1]]
  {
    if steps != [] {
      LastStartedRuns(steps[..|steps| - 1]);
      OneRebuildAtATime(steps[..|steps| - 1]);
      OneRebuildAtATime(steps);
    }
  }

  /** A step leaves the rebuilds as they are, or ends the running one, or starts one when none is running any more. */
  lemma StepStarts(steps: seq<Step>, step: Step)
    requires Valid(steps) && Enabled(Run(steps), step)
    ensures Valid(steps + [step]) && Run(steps + [step]) == Next(Run(steps), step)
    ensures var s, t := Run(steps), Run(steps + [step]);
      if |t.started| == |s.started| then
        t.started == s.started && t.running == if step.Enqueue? then s.running else []
      else
        && t.running != [] && t.started == s.started + [t.running[0]]
        && (step.Enqueue? ==> s.running == [])
  {
    assert (steps + [step])[..|steps|] == steps;
    OneRebuildAtATime(steps);
  }

  // ---------------------------------------------------------------- what a merged request carries

  function Covered(requests: seq<Request>): set<string> {
    set r, p | r in requests && p in r.changedPaths :: p
  }

  predicate NoneAfter(requests: seq<Request>, i: nat) {
    forall j :: i < j < |requests| ==> requests[j].configPathOverride.None?
  }

  /** The last config path among the requests that have one. */
  predicate IsLastOverride(override: Option<string>, requests: seq<Request>) {
    if override.None? then forall i :: 0 <= i < |requests| ==> requests[i].configPathOverride.None?
    else exists i :: 0 <= i < |requests| && requests[i].configPathOverride == override && NoneAfter(requests, i)
  }

  /** `merged` asks for what all the requests together ask for. */
  predicate Combines(merged: Request, requests: seq<Request>) {
    && Members(merged.changedPaths) == Covered(requests)
    && (merged.shouldRestartUi <==> exists r :: r in requests && r.shouldRestartUi)
    && IsLastOverride(merged.configPathOverride, requests)
  }

  lemma OneCombines(r: Request)
    ensures Combines(r, [r])
  {
    assert r in [r];
    assert [r][0] == r;
  }

  lemma LaterOverride(current: Option<string>, requests: seq<Request>, next: Request)
    requires IsLastOverride(current, requests)
    ensures IsLastOverride(if next.configPathOverride.Some? then next.configPathOverride else current,
                           requests + [next])
  {
    var all := requests + [next];
    assert all[|requests|] == next;
    assert forall i :: 0 <= i < |requests| ==> all[i] == requests[i];
  }

  lemma MergeCombines(current: Request, requests: seq<Request>, next: Request)
    requires Combines(current, requests)
    ensures Combines(Merge(Some(current), next), requests + [next])
  {
    assert forall r :: r in requests + [next] <==> r in requests || r == next;
    assert Covered(requests + [next]) == Covered(requests) + Members(next.changedPaths);
    assert Members(current.changedPaths + next.changedPaths) ==
           Members(current.changedPaths) + Members(next.changedPaths);
    LaterOverride(current.configPathOverride, requests, next);
  }

  // ---------------------------------------------------------------- nothing is lost

  /** The requests in the order in which they were enqueued. */
  function Requests(steps: seq<Step>): seq<Request> {
    if steps == [] then []
    else
      Requests(steps[..|steps| - 1]) +
      if steps[|steps| - 1].Enqueue? then [steps[|steps| - 1].request] else []
  }

  /** The rebuilds started so far, and the one that waits. */
  function Handed(s: State): seq<Request> {
    s.started + if s.pending.Some? then [s.pending.value] else []
  }

  function Flat(groups: seq<seq<Request>>): seq<Request> {
    if groups == [] then [] else Flat(groups[..|groups| - 1]) + groups[|groups| - 1]
  }

  /** Each rebuild combines its group, and no group is empty. */
  predicate Groups(groups: seq<seq<Request>>, rebuilds: seq<Request>) {
    |groups| == |rebuilds| && forall k :: 0 <= k < |groups| ==> groups[k] != [] && Combines(rebuilds[k], groups[k])
  }

  lemma FlatOfAppend(groups: seq<seq<Request>>, group: seq<Request>)
    ensures Flat(groups + [group]) == Flat(groups) + group
  {
    assert (groups + [group])[..|groups|] == groups;
  }

  /** A request that is merged into the last rebuild extends its group. */
  lemma GroupGrows(groups: seq<seq<Request>>, before: seq<Request>, last: Request, next: Request)
    returns (grown: seq<seq<Request>>)
    requires Groups(groups, before + [last])
    ensures Groups(grown, before + [Merge(Some(last), next)]) && Flat(grown) == Flat(groups) + [next]
  {
    var n := |before|;
    assert (before + [last])[n] == last;
    MergeCombines(last, groups[n], next);
    grown := groups[..n] + [groups[n] + [next]];
    FlatOfAppend(groups[..n], groups[n] + [next]);
    forall k | 0 <= k < n ensures groups[k] != [] && Combines(before[k], groups[k]) {
      assert (before + [last])[k] == before[k];
    }
  }

  lemma GroupBegins(groups: seq<seq<Request>>, rebuilds: seq<Request>, next: Request)
    requires Groups(groups, rebuilds)
    ensures Groups(groups + [[next]], rebuilds + [next]) && Flat(groups + [[next]]) == Flat(groups) + [next]
  {
    OneCombines(next);
    FlatOfAppend(groups, [next]);
  }

  /** A step adds nothing to the rebuilds, begins one, or merges one request into the last. */
  lemma StepHands(s: State, step: Step)
    requires Enabled(s, step) && SingleFlight(s)
    ensures step.Enqueue? && s.pending.Some? ==>
      Handed(Next(s, step)) == s.started + [Merge(Some(s.pending.value), step.request)]
    ensures step.Enqueue? && s.pending.None? ==> Handed(Next(s, step)) == Handed(s) + [step.request]
    ensures step.RunEnds? ==> Handed(Next(s, step)) == Handed(s)
  {
  }

  /**
   Over every run, failed rebuilds included: the requests, in order and with repetitions, are cut into consecutive
   groups, and each rebuild that was started or waits carries the paths, the UI restart and the last config path of
   its group.
   */
  lemma {:induction false} NoRequestIsLost(steps: seq<Step>) returns (groups: seq<seq<Request>>)
    requires Valid(steps)
    ensures Groups(groups, Handed(Run(steps))) && Flat(groups) == Requests(steps)
  {
    if steps == [] {
      groups := [];
    } else {
      var init, step := steps[..|steps| - 1], steps[|steps| - 1];
      groups := NoRequestIsLost(init);
      OneRebuildAtATime(init);
      var s := Run(init);
      StepHands(s, step);
      if step.Enqueue? && s.pending.Some? {
        groups := GroupGrows(groups, s.started, s.pending.value, step.request);
      } else if step.Enqueue? {
        GroupBegins(groups, Handed(s), step.request);
        groups := groups + [[step.request]];
      }
    }
  }

  // ---------------------------------------------------------------- every request is served afterwards

  /** Rebuild `at` combines requests `from` to `to`, one of which is request `i`. */
  predicate Serves(s: State, requests: seq<Request>, i: nat, at: nat, from: nat, to: nat) {
    && at < |Handed(s)| && from <= i < to <= |requests|
    && Combines(Handed(s)[at], requests[from..to])
  }

  /** A step leaves a rebuild alone, or merges one more request into the last one. */
  lemma StepServes(s: State, step: Step, before: seq<Request>, after: seq<Request>, i: nat, at: nat, from: nat, to: nat)
    returns (end: nat)
    requires Enabled(s, step) && after == before + if step.Enqueue? then [step.request] else []
    requires Serves(s, before, i, at, from, to) && (at == |Handed(s)| - 1 ==> to == |before|)
    ensures Serves(Next(s, step), after, i, at, from, end)
    ensures at == |Handed(Next(s, step))| - 1 ==> end == |after|
  {
    var t := Next(s, step);
    if step.Enqueue? && s.pending.Some? && at == |s.started| {
      MergeCombines(s.pending.value, before[from..to], step.request);
      assert after[from..to + 1] == before[from..to] + [step.request];
      end := to + 1;
    } else {
      assert Handed(t)[at] == Handed(s)[at];
      assert after[from..to] == before[from..to];
      end := to;
    }
  }

  lemma {:induction false} LaterRebuildServes(init: seq<Step>, r: Request, rest: seq<Step>)
    returns (at: nat, from: nat, to: nat)
    requires Valid(init + [Enqueue(r)] + rest)
    ensures Valid(init) && |Run(init).started| <= at
    ensures |Requests(init)| < |Requests(init + [Enqueue(r)] + rest)|
    ensures Requests(init + [Enqueue(r)] + rest)[|Requests(init)|] == r
    ensures Serves(Run(init + [Enqueue(r)] + rest), Requests(init + [Enqueue(r)] + rest), |Requests(init)|,
                   at, from, to)
    ensures at == |Handed(Run(init + [Enqueue(r)] + rest))| - 1 ==> to == |Requests(init + [Enqueue(r)] + rest)|
    decreases |rest|
  {
    var first := init + [Enqueue(r)];
    var all := first + rest;
    if rest == [] {
      assert all == first && all[..|all| - 1] == init;
      var groups := NoRequestIsLost(all);
      at := |groups| - 1;
      from, to := |Requests(all)| - |groups[at]|, |Requests(all)|;
      assert Requests(all)[from..to] == groups[at];
    } else {
      var shorter := rest[..|rest| - 1];
      assert all[..|all| - 1] == first + shorter;
      at, from, to := LaterRebuildServes(init, r, shorter);
      to := StepServes(Run(first + shorter), rest[|rest| - 1], Requests(first + shorter), Requests(all),
                       |Requests(init)|, at, from, to);
    }
  }

  /** A request's paths and UI restart are in the rebuild that serves it, and its config path unless a later request
      that the rebuild combines has another. */
  lemma ServedInFull(s: State, requests: seq<Request>, i: nat, at: nat, from: nat, to: nat)
    requires Serves(s, requests, i, at, from, to)
    ensures Members(requests[i].changedPaths) <= Members(Handed(s)[at].changedPaths)
    ensures requests[i].shouldRestartUi ==> Handed(s)[at].shouldRestartUi
    ensures requests[i].configPathOverride.Some? ==>
      IsLastOverride(Handed(s)[at].configPathOverride, requests[i..to])
  {
    var group, tail := requests[from..to], requests[i..to];
    assert group[i - from] == requests[i] && requests[i] in group;
    assert forall j :: 0 <= j < |tail| ==> tail[j] == group[i - from + j];
    if requests[i].configPathOverride.Some? {
      var k :| 0 <= k < |group| && NoneAfter(group, k)
               && group[k].configPathOverride == Handed(s)[at].configPathOverride;
      assert tail[k - (i - from)] == group[k];
      assert NoneAfter(tail, k - (i - from));
    }
  }

  /**
   Whenever a request is made, a rebuild that had not been started by then carries it: all its paths, its UI restart,
   and the last config path among it and the later requests up to `to`, which this rebuild combines. So a request made
   while a rebuild runs is always carried by a later one, even when it asks for the same paths.
   */
  lemma RequestIsServedLater(init: seq<Step>, r: Request, rest: seq<Step>) returns (at: nat, to: nat)
    requires Valid(init + [Enqueue(r)] + rest)
    ensures var all, t := Requests(init + [Enqueue(r)] + rest), Run(init + [Enqueue(r)] + rest);
      && Valid(init) && |Run(init).started| <= at < |Handed(t)|
      && |Requests(init)| < to <= |all| && all[|Requests(init)|] == r
      && Members(r.changedPaths) <= Members(Handed(t)[at].changedPaths)
      && (r.shouldRestartUi ==> Handed(t)[at].shouldRestartUi)
      && (r.configPathOverride.Some? ==>
            IsLastOverride(Handed(t)[at].configPathOverride, all[|Requests(init)|..to]))
  {
    var from;
    at, from, to := LaterRebuildServes(init, r, rest);
    ServedInFull(Run(init + [Enqueue(r)] + rest), Requests(init + [Enqueue(r)] + rest), |Requests(init)|, at, from, to);
  }

  // ---------------------------------------------------------------- the queue object

  class DevRebuildQueue {
    var pendingRequest: Option<Request>
    var drainPromise: bool
    /** Calls of the handler that have not returned. */
    var running: seq<Request>
    ghost var started: seq<Request>

    constructor ()
      ensures Fields() == EMPTY
    {
      pendingRequest, drainPromise, running, started := None, false, [], [];
    }

    ghost function Fields(): State
      reads this
    {
      State(pendingRequest, drainPromise, running, started)
    }

    method EnqueueRequest(request: Request)
      modifies this
      ensures Fields() == Next(old(Fields()), Enqueue(request))
    {
      var merged := MergePendingRequest(pendingRequest, request);
      pendingRequest := Some(merged);
      if !drainPromise {
        DrainOnce();
      }
    }

    method DrainOnce()
      modifies this
      ensures Fields() == Drain(old(Fields()))
    {
      if pendingRequest.Some? {
        drainPromise := true;
        running, started := running + [pendingRequest.value], started + [pendingRequest.value];
        pendingRequest := None;
      } else {
        drainPromise := false;
      }
    }

    method OnRunEnded(i: nat, failed: bool)
      requires i < |running|
      modifies this
      ensures Fields() == Next(old(Fields()), RunEnds(i, failed))
    {
      running := running[..i] + running[i + 1..];
      if failed {
        drainPromise := false;
      }
      DrainOnce();
    }

    static method MergePendingRequest(current: Option<Request>, next: Request) returns (merged: Request)
      ensures merged == Merge(current, next)
      ensures Members(merged.changedPaths) ==
        (if current.Some? then Members(current.value.changedPaths) else {}) + Members(next.changedPaths)
      ensures current.Some? ==>
        NoRepeats(merged.changedPaths)
        && InOrderOf(merged.changedPaths, current.value.changedPaths + next.changedPaths)
    {
      if current.None? { return next; }
      MergedInOrder(current.value, next);
      var all := current.value.changedPaths + next.changedPaths;
      assert Members(all) == Members(current.value.changedPaths) + Members(next.changedPaths);
      var distinct: seq<string> := [];
      for i := 0 to |all|
        invariant distinct == Distinct(all[..i])
      {
        assert all[..i + 1][..i] == all[..i];
        if all[i] !in distinct {
          distinct := distinct + [all[i]];
        }
      }
      assert all[..|all|] == all;
      merged := Request(
        distinct,
        if next.configPathOverride.Some? then next.configPathOverride else current.value.configPathOverride,
        current.value.shouldRestartUi || next.shouldRestartUi);
    }
  }
}

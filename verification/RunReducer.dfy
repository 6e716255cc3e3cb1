/**
 The reducer that folds workflow events into the cached state of one run.

 The nine event kinds of the source are four constructors here: the four node kinds differ only in how they
 set the run's status and pending execution, and the three invocation kinds are handled alike.
 */
module RunReducer {
  import opened Wrappers
  import opened RunSnapshots

  datatype RunStatus = RunRunning | RunPending | RunCompleted | RunFailed | RunSuspended

  datatype PendingExecution = PendingExecution(
    runId: string,
    activationId: string,
    workflowId: string,
    nodeId: string,
    itemsIn: nat,
    inputsByPort: Record,
    enqueuedAt: int
  )

  datatype Invocation = Invocation(invocationId: string, status: Status, details: string)

  /** `carried` stands for workflow snapshot, mutable state and queue: fields that are only copied. */
  datatype RunState = RunState(
    runId: string,
    workflowId: string,
    startedAt: int,
    parent: Option<ParentRef>,
    executionOptions: Option<string>,
    carried: Option<string>,
    status: RunStatus,
    pending: Option<PendingExecution>,
    outputsByNode: map<string, Record>,
    nodes: map<string, Snapshot>,
    invocations: Option<seq<Invocation>>
  )

  datatype NodeEventKind = NodeQueued | NodeStarted | NodeCompleted | NodeFailed

  datatype InvocationEventKind = InvocationStarted | InvocationCompleted | InvocationFailed

  datatype Event =
    | RunCreated(runId: string, workflowId: string, parent: Option<ParentRef>, at: int)
    | RunSaved(runId: string, workflowId: string, parent: Option<ParentRef>, at: int, state: RunState)
    | NodeEvent(runId: string, workflowId: string, parent: Option<ParentRef>, at: int,
                nodeKind: NodeEventKind, snapshot: Snapshot)
    | InvocationEvent(runId: string, workflowId: string, parent: Option<ParentRef>, at: int,
                      invocationKind: InvocationEventKind, record: Invocation)

  // ---------------------------------------------------------------- the transition function

  function EmptyRun(e: Event, status: RunStatus): RunState {
    RunState(e.runId, e.workflowId, e.at, e.parent, None, None, status, None, map[], map[], None)
  }

  function OrElse<T>(a: Option<T>, b: Option<T>): Option<T> {
    if a.Some? then a else b
  }

  ghost function CountItems(r: Record): nat
    decreases |r|
  {
    if r == map[] then 0
    else
      var p :| p in r;
      assert (r - {p}).Keys < r.Keys && |(r - {p}).Keys| == |r.Keys| - 1;
      |r[p]| + CountItems(r - {p})
  }

  function SavedState(current: Option<RunState>, saved: RunState): RunState {
    if current.None? then saved else saved.(nodes := MergeNodeMaps(current.value.nodes, saved.nodes))
  }

  predicate HasInvocation(s: seq<Invocation>, id: string) {
    exists i :: 0 <= i < |s| && s[i].invocationId == id
  }

  function ReplaceInvocation(s: seq<Invocation>, r: Invocation): seq<Invocation> {
    seq(|s|, i requires 0 <= i < |s| => if s[i].invocationId == r.invocationId then r else s[i])
  }

  /** The record takes the place of those with its id, or goes to the end when there is none. */
  function PutInvocation(s: seq<Invocation>, r: Invocation): seq<Invocation> {
    if HasInvocation(s, r.invocationId) then ReplaceInvocation(s, r) else s + [r]
  }

  function InvocationState(current: Option<RunState>, e: Event): RunState
    requires e.InvocationEvent?
  {
    var base := current.GetOr(EmptyRun(e, RunPending));
    base.(parent := OrElse(base.parent, e.parent),
          invocations := Some(PutInvocation(base.invocations.GetOr([]), e.record)))
  }

  function NodeBase(current: Option<RunState>, e: Event): RunState
    requires e.NodeEvent?
  {
    current.GetOr(EmptyRun(e, if e.nodeKind == NodeFailed then RunFailed else RunPending))
  }

  function NextNodes(base: RunState, e: Event): map<string, Snapshot>
    requires e.NodeEvent?
  {
    base.nodes[e.snapshot.nodeId := MergeSnapshot(Lookup(base.nodes, e.snapshot.nodeId), e.snapshot)]
  }

  function NextOutputs(base: RunState, e: Event): map<string, Record>
    requires e.NodeEvent?
  {
    if e.snapshot.outputs.None? then base.outputsByNode
    else base.outputsByNode[e.snapshot.nodeId := e.snapshot.outputs.value]
  }

  ghost function NextPending(base: RunState, e: Event): Option<PendingExecution>
    requires e.NodeEvent?
  {
    if e.nodeKind == NodeQueued || e.nodeKind == NodeStarted then
      Some(PendingExecution(
        e.runId,
        e.snapshot.activationId.GetOr("live_" + e.snapshot.nodeId),
        e.workflowId,
        e.snapshot.nodeId,
        CountItems(e.snapshot.inputsByPort.GetOr(map[])),
        e.snapshot.inputsByPort.GetOr(map[]),
        e.snapshot.queuedAt.GetOr(e.at)))
    else if base.pending.Some? && base.pending.value.nodeId == e.snapshot.nodeId then None
    else base.pending
  }

  predicate HasActive(nodes: map<string, Snapshot>) {
    exists n :: n in nodes && Active(nodes[n].status)
  }

  ghost function NodeState(current: Option<RunState>, e: Event): RunState
    requires e.NodeEvent?
  {
    var base := NodeBase(current, e);
    var nodes := NextNodes(base, e);
    var pending := NextPending(base, e);
    var status :=
      if e.nodeKind == NodeFailed then RunFailed
      else if e.nodeKind == NodeCompleted && pending.None? && !HasActive(nodes) then RunCompleted
      else if e.nodeKind == NodeCompleted then base.status
      else RunPending;
    base.(parent := OrElse(base.parent, e.parent), status := status, pending := pending,
          outputsByNode := NextOutputs(base, e), nodes := nodes)
  }

  ghost function Reduce(current: Option<RunState>, e: Event): RunState {
    match e
    case RunCreated(_, _, _, _) => EmptyRun(e, RunRunning)
    case RunSaved(_, _, _, _, state) => SavedState(current, state)
    case NodeEvent(_, _, _, _, _, _) => NodeState(current, e)
    case InvocationEvent(_, _, _, _, _, _) => InvocationState(current, e)
  }

  ghost function ReduceAll(current: Option<RunState>, es: seq<Event>): Option<RunState> {
    if es == [] then current else Some(Reduce(ReduceAll(current, es[..|es| - 1]), es[|es| - 1]))
  }

  // ---------------------------------------------------------------- redelivery

  lemma SavedTwice(current: Option<RunState>, saved: RunState)
    ensures SavedState(Some(SavedState(current, saved)), saved) == SavedState(current, saved)
  {
    var once := SavedState(current, saved);
    forall n | n in saved.nodes
      ensures MergeSnapshot(Lookup(once.nodes, n), saved.nodes[n]) == once.nodes[n]
    {
      MergeSnapshotTwice(if current.None? then None else Lookup(current.value.nodes, n), saved.nodes[n]);
    }
    assert MergeNodeMaps(once.nodes, saved.nodes) == once.nodes;
  }

  lemma PutInvocationTwice(s: seq<Invocation>, r: Invocation)
    ensures PutInvocation(PutInvocation(s, r), r) == PutInvocation(s, r)
  {
    var once := PutInvocation(s, r);
    if HasInvocation(s, r.invocationId) {
      var i :| 0 <= i < |s| && s[i].invocationId == r.invocationId;
      assert once[i].invocationId == r.invocationId;
    } else {
      assert once[|s|].invocationId == r.invocationId;
    }
    assert ReplaceInvocation(once, r) == once;
  }

  lemma NodeTwice(current: Option<RunState>, e: Event)
    requires e.NodeEvent?
    ensures NodeState(Some(NodeState(current, e)), e) == NodeState(current, e)
  {
    var base, once := NodeBase(current, e), NodeState(current, e);
    MergeSnapshotTwice(Lookup(base.nodes, e.snapshot.nodeId), e.snapshot);
    assert NextNodes(once, e) == once.nodes;
    assert NextOutputs(once, e) == once.outputsByNode;
    assert NextPending(once, e) == once.pending;
  }

  lemma InvocationTwice(current: Option<RunState>, e: Event)
    requires e.InvocationEvent?
    ensures InvocationState(Some(InvocationState(current, e)), e) == InvocationState(current, e)
  {
    PutInvocationTwice(current.GetOr(EmptyRun(e, RunPending)).invocations.GetOr([]), e.record);
  }

  /** Delivering any event a second time changes nothing, whatever the state it meets. */
  lemma RedeliveryIsHarmless(current: Option<RunState>, e: Event)
    ensures Reduce(Some(Reduce(current, e)), e) == Reduce(current, e)
  {
    match e
    case RunCreated(_, _, _, _) =>
    case RunSaved(_, _, _, _, state) => SavedTwice(current, state);
    case InvocationEvent(_, _, _, _, _, _) => InvocationTwice(current, e);
    case NodeEvent(_, _, _, _, _, _) => NodeTwice(current, e);
  }

  // ---------------------------------------------------------------- order independence

  function NodeView(s: Option<RunState>, node: string): View {
    ViewOf(if s.None? then None else Lookup(s.value.nodes, node))
  }

  /** The ports that the events carry for `node`. */
  function SentOutputs(es: seq<Event>, node: string): set<string>
    requires forall e :: e in es ==> e.NodeEvent?
  {
    set e: Event, p: string | e in es && e.snapshot.nodeId == node && p in PortCounts(e.snapshot.outputs) :: p
  }

  function SentInputs(es: seq<Event>, node: string): set<string>
    requires forall e :: e in es ==> e.NodeEvent?
  {
    set e: Event, p: string | e in es && e.snapshot.nodeId == node && p in PortCounts(e.snapshot.inputsByPort) :: p
  }

  /** `v` is the least upper bound of `start` and of the views of the snapshots that `es` carry for `node`. */
  predicate IsJoinOf(v: View, start: View, es: seq<Event>, node: string)
    requires forall e :: e in es ==> e.NodeEvent?
  {
    && start.rank <= v.rank
    && (forall e :: e in es && e.snapshot.nodeId == node ==> Rank(e.snapshot.status) <= v.rank)
    && (v.rank == start.rank || exists e :: e in es && e.snapshot.nodeId == node && Rank(e.snapshot.status) == v.rank)
    && v.outputs == start.outputs + SentOutputs(es, node)
    && v.inputs == start.inputs + SentInputs(es, node)
  }

  lemma SentStep(es: seq<Event>, last: Event, node: string)
    requires last.NodeEvent? && forall e :: e in es ==> e.NodeEvent?
    ensures forall e :: e in es + [last] <==> e in es || e == last
    ensures SentOutputs(es + [last], node) == SentOutputs(es, node) +
              if last.snapshot.nodeId == node then PortCounts(last.snapshot.outputs).Keys else {}
    ensures SentInputs(es + [last], node) == SentInputs(es, node) +
              if last.snapshot.nodeId == node then PortCounts(last.snapshot.inputsByPort).Keys else {}
  {
    assert forall e :: e in es + [last] <==> e in es || e == last;
  }

  lemma JoinStep(v: View, start: View, es: seq<Event>, last: Event, node: string)
    requires last.NodeEvent? && forall e :: e in es ==> e.NodeEvent?
    requires IsJoinOf(v, start, es, node)
    ensures IsJoinOf(if last.snapshot.nodeId == node then Join(v, ViewOf(Some(last.snapshot))) else v,
                     start, es + [last], node)
  {
    SentStep(es, last, node);
    assert last in es + [last];
  }

  lemma ViewStep(before: Option<RunState>, last: Event, node: string)
    requires last.NodeEvent?
    ensures NodeView(Some(Reduce(before, last)), node) ==
      if last.snapshot.nodeId == node then Join(NodeView(before, node), ViewOf(Some(last.snapshot)))
      else NodeView(before, node)
  {
    if last.snapshot.nodeId == node {
      MergeIsJoin(Lookup(NodeBase(before, last).nodes, node), last.snapshot);
    }
  }

  lemma {:induction false} NodeEventsJoin(start: Option<RunState>, es: seq<Event>, node: string)
    requires forall e :: e in es ==> e.NodeEvent?
    ensures IsJoinOf(NodeView(ReduceAll(start, es), node), NodeView(start, node), es, node)
  {
    if es == [] {
      assert SentOutputs(es, node) == {} && SentInputs(es, node) == {};
    } else {
      var init, last := es[..|es| - 1], es[|es| - 1];
      NodeEventsJoin(start, init, node);
      assert es == init + [last];
      JoinStep(NodeView(ReduceAll(start, init), node), NodeView(start, node), init, last, node);
      ViewStep(ReduceAll(start, init), last, node);
    }
  }

  /** Any two deliveries of the same set of node events, in any order and with any repetition, agree on the view. */
  lemma OrderAndRepetitionDoNotMatter(start: Option<RunState>, es: seq<Event>, fs: seq<Event>, node: string)
    requires forall e :: e in es ==> e.NodeEvent?
    requires forall e :: e in es <==> e in fs
    ensures NodeView(ReduceAll(start, es), node) == NodeView(ReduceAll(start, fs), node)
  {
    NodeEventsJoin(start, es, node);
    NodeEventsJoin(start, fs, node);
    assert SentOutputs(es, node) == SentOutputs(fs, node) && SentInputs(es, node) == SentInputs(fs, node);
  }

  /** Only the rank is independent of the order: statuses of equal rank still overwrite each other. */
  lemma StatusDependsOnOrder() returns (e: Event, f: Event)
    ensures e.NodeEvent? && f.NodeEvent? && e.snapshot.nodeId == f.snapshot.nodeId == "n"
    ensures "n" in ReduceAll(None, [e, f]).value.nodes && "n" in ReduceAll(None, [f, e]).value.nodes
    ensures ReduceAll(None, [e, f]).value.nodes["n"].status != ReduceAll(None, [f, e]).value.nodes["n"].status
  {
    e := NodeEvent("r", "w", None, 0, NodeCompleted, Snapshot("n", Completed, None, None, None, None, ""));
    f := e.(snapshot := e.snapshot.(status := Skipped));
    LaterOfEqualRankWins(e, f);
    LaterOfEqualRankWins(f, e);
  }

  lemma LaterOfEqualRankWins(e: Event, f: Event)
    requires e.NodeEvent? && f.NodeEvent? && e.snapshot.nodeId == f.snapshot.nodeId
    requires Rank(e.snapshot.status) == Rank(f.snapshot.status)
    ensures e.snapshot.nodeId in ReduceAll(None, [e, f]).value.nodes
    ensures ReduceAll(None, [e, f]).value.nodes[e.snapshot.nodeId].status == f.snapshot.status
  {
    assert [e, f][..1] == [e] && [e][..0] == [];
    assert ReduceAll(None, [e]) == Some(Reduce(None, e));
    assert ReduceAll(None, [e, f]) == Some(Reduce(Some(Reduce(None, e)), f));
    MergeKeepsExactlyWhenNothingIsAdded(e.snapshot, f.snapshot);
  }

  // ---------------------------------------------------------------- when the status is independent of the order

  function StatusOf(s: Option<RunState>, node: string): Option<Status> {
    if s.Some? && node in s.value.nodes then Some(s.value.nodes[node].status) else None
  }

  /** `e` has the highest rank of all events for the node, and is not outranked by the start state. */
  predicate IsTop(start: Option<RunState>, es: seq<Event>, node: string, e: Event)
    requires forall d :: d in es ==> d.NodeEvent?
  {
    && e in es && e.snapshot.nodeId == node
    && (forall d :: d in es && d.snapshot.nodeId == node ==> Rank(d.snapshot.status) <= Rank(e.snapshot.status))
    && NodeView(start, node).rank <= Rank(e.snapshot.status)
  }

  lemma StatusStep(before: Option<RunState>, last: Event, node: string)
    requires last.NodeEvent?
    ensures StatusOf(Some(Reduce(before, last)), node) ==
      if last.snapshot.nodeId != node || Rank(last.snapshot.status) < NodeView(before, node).rank then
        StatusOf(before, node)
      else Some(last.snapshot.status)
  {
    var prev := Lookup(NodeBase(before, last).nodes, node);
    if last.snapshot.nodeId == node && prev.Some? {
      MergeKeepsExactlyWhenNothingIsAdded(prev.value, last.snapshot);
    }
  }

  /** The final status is that of a top event, or that of the start when there is none. */
  lemma {:induction false} FinalStatus(start: Option<RunState>, es: seq<Event>, node: string)
    requires forall e :: e in es ==> e.NodeEvent?
    ensures (exists e :: IsTop(start, es, node, e) && StatusOf(ReduceAll(start, es), node) == Some(e.snapshot.status))
            || ((forall e :: !IsTop(start, es, node, e))
                && StatusOf(ReduceAll(start, es), node) == StatusOf(start, node))
  {
    if es != [] {
      var init, last := es[..|es| - 1], es[|es| - 1];
      assert es == init + [last];
      assert forall e :: e in es <==> e in init || e == last;
      FinalStatus(start, init, node);
      NodeEventsJoin(start, init, node);
      StatusStep(ReduceAll(start, init), last, node);
      if last.snapshot.nodeId == node && Rank(last.snapshot.status) >= NodeView(ReduceAll(start, init), node).rank {
        assert IsTop(start, es, node, last);
      } else {
        SameTops(start, init, last, node);
      }
    }
  }

  lemma SameTops(start: Option<RunState>, init: seq<Event>, last: Event, node: string)
    requires last.NodeEvent? && forall e :: e in init ==> e.NodeEvent?
    requires last.snapshot.nodeId != node || Rank(last.snapshot.status) < NodeView(ReduceAll(start, init), node).rank
    ensures forall e :: IsTop(start, init + [last], node, e) <==> IsTop(start, init, node, e)
  {
    NodeEventsJoin(start, init, node);
    assert forall e :: e in init + [last] <==> e in init || e == last;
  }

  /** A top event that comes last decides the status. */
  lemma LastTopWins(start: Option<RunState>, es: seq<Event>, e: Event, node: string)
    requires e.NodeEvent? && forall d :: d in es ==> d.NodeEvent?
    requires IsTop(start, es + [e], node, e)
    ensures StatusOf(ReduceAll(start, es + [e]), node) == Some(e.snapshot.status)
  {
    var all := es + [e];
    assert all[..|all| - 1] == es;
    assert forall d :: d in es ==> d in all;
    NodeEventsJoin(start, es, node);
    StatusStep(ReduceAll(start, es), e, node);
  }

  /** The events can be delivered in an order in which a given top event decides the status. */
  lemma MovedLast(start: Option<RunState>, es: seq<Event>, e: Event, node: string) returns (fs: seq<Event>)
    requires (forall d :: d in es ==> d.NodeEvent?) && IsTop(start, es, node, e)
    ensures multiset(fs) == multiset(es) && StatusOf(ReduceAll(start, fs), node) == Some(e.snapshot.status)
  {
    var i :| 0 <= i < |es| && es[i] == e;
    var others := es[..i] + es[i + 1..];
    fs := others + [e];
    assert es == es[..i] + [e] + es[i + 1..];
    assert multiset(fs) == multiset(es);
    SameMembers(es, fs);
    LastTopWins(start, others, e, node);
  }

  lemma SameMembers(es: seq<Event>, fs: seq<Event>)
    requires multiset(es) == multiset(fs)
    ensures forall e :: e in es <==> e in fs
  {
    forall e ensures e in es <==> e in fs {
      assert e in multiset(es) <==> e in es;
      assert e in multiset(fs) <==> e in fs;
    }
  }

  ghost predicate OneTopStatus(start: Option<RunState>, es: seq<Event>, node: string)
    requires forall e :: e in es ==> e.NodeEvent?
  {
    forall e, f :: IsTop(start, es, node, e) && IsTop(start, es, node, f) ==> e.snapshot.status == f.snapshot.status
  }

  /** With one status among the top events, every delivery of these events, repetitions included, ends in one status. */
  lemma OneTopStatusDecides(start: Option<RunState>, es: seq<Event>, fs: seq<Event>, node: string)
    requires (forall e :: e in es ==> e.NodeEvent?) && forall e :: e in es <==> e in fs
    requires OneTopStatus(start, es, node)
    ensures StatusOf(ReduceAll(start, fs), node) == StatusOf(ReduceAll(start, es), node)
  {
    assert forall e :: IsTop(start, es, node, e) <==> IsTop(start, fs, node, e);
    FinalStatus(start, es, node);
    FinalStatus(start, fs, node);
  }

  /**
   A node's status is the same for every order of the events exactly when the events for it that have the highest rank,
   and at least the rank of the start, all carry one status.
   */
  lemma StatusIndependentOfOrder(start: Option<RunState>, es: seq<Event>, node: string)
    requires forall e :: e in es ==> e.NodeEvent?
    ensures OneTopStatus(start, es, node) <==>
      forall fs :: multiset(fs) == multiset(es) ==>
        StatusOf(ReduceAll(start, fs), node) == StatusOf(ReduceAll(start, es), node)
  {
    if OneTopStatus(start, es, node) {
      forall fs | multiset(fs) == multiset(es)
        ensures StatusOf(ReduceAll(start, fs), node) == StatusOf(ReduceAll(start, es), node)
      {
        SameMembers(es, fs);
        OneTopStatusDecides(start, es, fs, node);
      }
    } else {
      var e, f :| IsTop(start, es, node, e) && IsTop(start, es, node, f) && e.snapshot.status != f.snapshot.status;
      var eLast := MovedLast(start, es, e, node);
      var fLast := MovedLast(start, es, f, node);
    }
  }

  // ---------------------------------------------------------------- a completed run is finished

  predicate Finished(s: RunState) {
    s.pending.None? && !HasActive(s.nodes)
  }

  predicate CompletedMeansFinished(s: Option<RunState>) {
    s.Some? && s.value.status == RunCompleted ==> Finished(s.value)
  }

  /** The merge of `next` into the cached snapshot leaves the node queued or running. */
  predicate StaysActive(prev: Option<Snapshot>, next: Snapshot) {
    if prev.Some? && Rank(next.status) < Rank(prev.value.status) then Active(prev.value.status)
    else Active(next.status)
  }

  /** What a caller has to check before applying `e`, given the cached state. */
  predicate SafeToApply(s: Option<RunState>, e: Event) {
    match e
    case RunCreated(_, _, _, _) => true
    case InvocationEvent(_, _, _, _, _, _) => true
    case NodeEvent(_, _, _, _, kind, snapshot) =>
      kind == NodeCompleted && s.Some? && s.value.status == RunCompleted ==>
        !StaysActive(Lookup(s.value.nodes, snapshot.nodeId), snapshot)
    case RunSaved(_, _, _, _, state) =>
      state.status == RunCompleted ==>
        && state.pending.None?
        && forall n :: n in state.nodes ==>
             !StaysActive(if s.None? then None else Lookup(s.value.nodes, n), state.nodes[n])
  }

  lemma MergedActivity(prev: Option<Snapshot>, next: Snapshot)
    ensures Active(MergeSnapshot(prev, next).status) <==> StaysActive(prev, next)
  {
    if prev.Some? {
      MergeKeepsExactlyWhenNothingIsAdded(prev.value, next);
    }
  }

  /** From a state that has the property, one event keeps it exactly when it passes the check. */
  lemma OneEventKeepsCompletedFinished(s: Option<RunState>, e: Event)
    requires CompletedMeansFinished(s)
    ensures CompletedMeansFinished(Some(Reduce(s, e))) <==> SafeToApply(s, e)
  {
    match e
    case RunCreated(_, _, _, _) =>
    case InvocationEvent(_, _, _, _, _, _) =>
    case NodeEvent(_, _, _, _, kind, snapshot) =>
      var base, after := NodeBase(s, e), NodeState(s, e);
      MergedActivity(Lookup(base.nodes, snapshot.nodeId), snapshot);
      if kind == NodeCompleted && base.status == RunCompleted && HasActive(after.nodes) {
        var n :| n in after.nodes && Active(after.nodes[n].status);
        assert n == snapshot.nodeId;
      }
      if StaysActive(Lookup(base.nodes, snapshot.nodeId), snapshot) {
        assert Active(after.nodes[snapshot.nodeId].status);
      }
    case RunSaved(_, _, _, _, state) =>
      SavedActivity(s, state);
  }

  lemma SavedActivity(s: Option<RunState>, saved: RunState)
    ensures HasActive(SavedState(s, saved).nodes) <==>
      exists n :: n in saved.nodes && StaysActive(if s.None? then None else Lookup(s.value.nodes, n), saved.nodes[n])
  {
    var after := SavedState(s, saved);
    forall n | n in saved.nodes
      ensures Active(after.nodes[n].status) <==>
        StaysActive(if s.None? then None else Lookup(s.value.nodes, n), saved.nodes[n])
    {
      MergedActivity(if s.None? then None else Lookup(s.value.nodes, n), saved.nodes[n]);
    }
  }

  /** What a server that keeps its own invariants sends; nodeFailed needs no condition. */
  predicate WellFormed(e: Event) {
    && (e.NodeEvent? && e.nodeKind == NodeCompleted ==> Terminal(e.snapshot.status))
    && (e.RunSaved? && e.state.status == RunCompleted ==>
          e.state.pending.None? && forall n :: n in e.state.nodes ==> Terminal(e.state.nodes[n].status))
  }

  /** Every state reachable by well-formed events: a completed run has nothing pending, queued or running. */
  lemma {:induction false} CompletedRunsAreFinished(es: seq<Event>)
    requires forall e :: e in es ==> WellFormed(e)
    ensures CompletedMeansFinished(ReduceAll(None, es))
  {
    if es != [] {
      var init, last := es[..|es| - 1], es[|es| - 1];
      CompletedRunsAreFinished(init);
      assert WellFormed(last);
      OneEventKeepsCompletedFinished(ReduceAll(None, init), last);
    }
  }

  // ---------------------------------------------------------------- what an event does not say, stays

  /** A created run is running, and forgets whatever was cached under its id. */
  lemma CreatedRunIsFresh(s: Option<RunState>, e: Event)
    requires e.RunCreated?
    ensures var t := Reduce(s, e);
      && t.status == RunRunning && Finished(t) && t.nodes == map[] && t.outputsByNode == map[] && t.invocations.None?
      && t.runId == e.runId && t.workflowId == e.workflowId && t.startedAt == e.at && t.parent == e.parent
      && t.executionOptions.None? && t.carried.None?
  {
  }

  /** The identity of a run, its start and what is only carried along come from its first event or a saved state. */
  predicate SameRun(s: RunState, t: RunState) {
    && s.runId == t.runId && s.workflowId == t.workflowId && s.startedAt == t.startedAt
    && s.executionOptions == t.executionOptions && s.carried == t.carried
  }

  /** An unknown run begins with what its first event says. */
  predicate BeginsWith(t: RunState, e: Event) {
    && t.runId == e.runId && t.workflowId == e.workflowId && t.startedAt == e.at
    && t.executionOptions.None? && t.carried.None?
  }

  /** A node event changes its node, the node's outputs if it has any, and nothing of any other node; the run keeps the
      parent that it learnt first. */
  lemma NodeEventChangesItsNode(s: Option<RunState>, e: Event)
    requires e.NodeEvent?
    ensures var t, node := Reduce(s, e), e.snapshot.nodeId;
      && (if s.Some? then SameRun(s.value, t) else BeginsWith(t, e))
      && t.parent == (if s.Some? && s.value.parent.Some? then s.value.parent else e.parent)
      && t.invocations == (if s.Some? then s.value.invocations else None)
      && node in t.nodes
      && (forall n :: n != node ==>
            (n in t.nodes <==> s.Some? && n in s.value.nodes) && (n in t.nodes ==> t.nodes[n] == s.value.nodes[n])
            && (n in t.outputsByNode <==> s.Some? && n in s.value.outputsByNode)
            && (n in t.outputsByNode ==> t.outputsByNode[n] == s.value.outputsByNode[n]))
      && (e.snapshot.outputs.Some? ==> node in t.outputsByNode && t.outputsByNode[node] == e.snapshot.outputs.value)
      && (e.snapshot.outputs.None? ==> t.outputsByNode == if s.Some? then s.value.outputsByNode else map[])
  {
  }

  /** An invocation event records its invocation and, like a node event, a first parent; all else stays, and an unknown
      run is pending. */
  lemma InvocationEventIsRecorded(s: Option<RunState>, e: Event)
    requires e.InvocationEvent?
    ensures var t := Reduce(s, e);
      && (if s.Some? then SameRun(s.value, t) && t.status == s.value.status && t.pending == s.value.pending
                          && t.nodes == s.value.nodes && t.outputsByNode == s.value.outputsByNode
          else BeginsWith(t, e) && t.status == RunPending && Finished(t)
               && t.nodes == map[] && t.outputsByNode == map[])
      && t.parent == (if s.Some? && s.value.parent.Some? then s.value.parent else e.parent)
      && t.invocations.Some? && e.record in t.invocations.value
      && (forall r :: r in t.invocations.value ==> r == e.record || (s.Some? && r in s.value.invocations.GetOr([])))
      && (s.Some? ==> forall r :: r in s.value.invocations.GetOr([]) && r.invocationId != e.record.invocationId ==>
            r in t.invocations.value)
  {
    var before := if s.Some? then s.value.invocations.GetOr([]) else [];
    RecordedAmong(before, e.record);
  }

  lemma RecordedAmong(s: seq<Invocation>, r: Invocation)
    ensures r in PutInvocation(s, r)
    ensures forall x :: x in PutInvocation(s, r) ==> x == r || x in s
    ensures forall x :: x in s && x.invocationId != r.invocationId ==> x in PutInvocation(s, r)
  {
    var t := PutInvocation(s, r);
    if HasInvocation(s, r.invocationId) {
      var i :| 0 <= i < |s| && s[i].invocationId == r.invocationId;
      assert t[i] == r;
      forall x | x in s && x.invocationId != r.invocationId ensures x in t {
        var k :| 0 <= k < |s| && s[k] == x;
        assert t[k] == x;
      }
    }
  }

  /** A saved state replaces everything but the snapshots of its nodes, which are merged with the cached ones. */
  lemma SavedStateReplaces(s: Option<RunState>, e: Event)
    requires e.RunSaved?
    ensures var t := Reduce(s, e);
      && t.(nodes := map[]) == e.state.(nodes := map[]) && t.nodes.Keys == e.state.nodes.Keys
      && (forall n :: n in t.nodes ==>
            t.nodes[n] == if s.Some? && n in s.value.nodes then MergeSnapshot(Some(s.value.nodes[n]), e.state.nodes[n])
                          else e.state.nodes[n])
  {
  }

  /** Nothing is counted exactly when no port has an item. */
  lemma {:induction false} NothingCounted(r: Record)
    ensures CountItems(r) == 0 <==> forall p :: p in r ==> |r[p]| == 0
    decreases |r|
  {
    if r != map[] {
      var p :| p in r;
      var rest := r - {p};
      CountItemsWithout(r, p);
      assert rest.Keys == r.Keys - {p} && |rest.Keys| == |r.Keys| - 1;
      NothingCounted(rest);
      assert forall q :: q in r ==> q == p || (q in rest && rest[q] == r[q]);
      assert forall q :: q in rest ==> q in r && rest[q] == r[q];
    }
  }

  // ---------------------------------------------------------------- when a run is completed or failed

  /** What a node event makes of a run that is not completed: failed when a node fails, completed when the last open
      work is done, as it was when other work is open, and pending when a node is queued or starts. */
  lemma StatusAfterNodeEvent(s: Option<RunState>, e: Event)
    requires e.NodeEvent? && (s.Some? ==> s.value.status != RunCompleted)
    ensures var t := Reduce(s, e);
      && (t.status == RunCompleted <==> e.nodeKind == NodeCompleted && Finished(t))
      && (t.status == RunFailed <==>
            || e.nodeKind == NodeFailed
            || (e.nodeKind == NodeCompleted && !Finished(t) && s.Some? && s.value.status == RunFailed))
      && (e.nodeKind == NodeQueued || e.nodeKind == NodeStarted ==> t.status == RunPending)
      && (e.nodeKind == NodeCompleted && !Finished(t) ==>
            t.status == if s.Some? then s.value.status else RunPending)
  {
  }

  /** A completed run stays so when a node completes, is failed by a node that fails, and is open again otherwise. */
  lemma CompletedRunAfterNodeEvent(s: RunState, e: Event)
    requires e.NodeEvent? && s.status == RunCompleted
    ensures Reduce(Some(s), e).status ==
      if e.nodeKind == NodeCompleted then RunCompleted else if e.nodeKind == NodeFailed then RunFailed else RunPending
  {
  }

  predicate Opens(e: Event) {
    e.NodeEvent? && (e.nodeKind == NodeQueued || e.nodeKind == NodeStarted)
  }

  predicate Closes(e: Event, node: string) {
    e.NodeEvent? && (e.nodeKind == NodeCompleted || e.nodeKind == NodeFailed) && e.snapshot.nodeId == node
  }

  /** Event `i` opened the work that is still pending: nothing was queued or started after it, nor did its node end. */
  predicate StillOpen(es: seq<Event>, i: nat)
    requires i < |es|
  {
    Opens(es[i]) && forall j :: i < j < |es| ==> !Opens(es[j]) && !Closes(es[j], es[i].snapshot.nodeId)
  }

  lemma StillOpenAfter(init: seq<Event>, e: Event)
    ensures Opens(e) ==> StillOpen(init + [e], |init|)
    ensures forall i :: 0 <= i < |init| ==>
      (StillOpen(init + [e], i) <==> StillOpen(init, i) && !Opens(e) && !Closes(e, init[i].snapshot.nodeId))
  {
    var es := init + [e];
    assert es[|init|] == e && forall i :: 0 <= i < |init| ==> es[i] == init[i];
    forall i | 0 <= i < |init|
      ensures StillOpen(es, i) <==> StillOpen(init, i) && !Opens(e) && !Closes(e, init[i].snapshot.nodeId)
    {
      if Opens(init[i]) && StillOpen(es, i) {
        assert !Opens(es[|init|]) && !Closes(es[|init|], es[i].snapshot.nodeId);
        assert forall j :: i < j < |init| ==> es[j] == init[j];
      }
    }
  }

  /** The pending execution is that of the open event, with what the event says about it. */
  ghost predicate PendingOf(p: PendingExecution, e: Event)
    requires e.NodeEvent?
  {
    && p.nodeId == e.snapshot.nodeId && p.runId == e.runId && p.workflowId == e.workflowId
    && p.activationId == e.snapshot.activationId.GetOr("live_" + e.snapshot.nodeId)
    && p.inputsByPort == e.snapshot.inputsByPort.GetOr(map[]) && p.itemsIn == CountItems(p.inputsByPort)
    && p.enqueuedAt == e.snapshot.queuedAt.GetOr(e.at)
  }

  predicate HasOpen(es: seq<Event>) {
    exists i :: 0 <= i < |es| && StillOpen(es, i)
  }

  /** After a run was created and any node events: something is pending exactly when an event is still open. */
  lemma {:induction false} PendingIsOpen(start: RunState, es: seq<Event>)
    requires start.pending.None? && forall e :: e in es ==> e.NodeEvent?
    ensures var t := ReduceAll(Some(start), es).value;
      && (t.pending.Some? <==> HasOpen(es))
      && forall i :: 0 <= i < |es| && StillOpen(es, i) ==> t.pending.Some? && PendingOf(t.pending.value, es[i])
  {
    if es != [] {
      var init, e := es[..|es| - 1], es[|es| - 1];
      assert es == init + [e];
      PendingIsOpen(start, init);
      StillOpenAfter(init, e);
      OpenAfter(ReduceAll(Some(start), init).value, init, e);
    }
  }

  lemma OpenAfter(s: RunState, init: seq<Event>, e: Event)
    requires e.NodeEvent? && forall d :: d in init ==> d.NodeEvent?
    requires s.pending.Some? <==> HasOpen(init)
    requires forall i :: 0 <= i < |init| && StillOpen(init, i) ==>
      s.pending.Some? && PendingOf(s.pending.value, init[i])
    ensures var t, es := NodeState(Some(s), e), init + [e];
      && (t.pending.Some? <==> HasOpen(es))
      && forall i :: 0 <= i < |es| && StillOpen(es, i) ==>
           es[i].NodeEvent? && t.pending.Some? && PendingOf(t.pending.value, es[i])
  {
    var t, es := NodeState(Some(s), e), init + [e];
    StillOpenAfter(init, e);
    assert es[|init|] == e && forall i :: 0 <= i < |init| ==> es[i] == init[i];
    if !Opens(e) && s.pending.Some? {
      var i :| 0 <= i < |init| && StillOpen(init, i);
      assert s.pending.value.nodeId == init[i].snapshot.nodeId;
      assert StillOpen(es, i) <==> !Closes(e, init[i].snapshot.nodeId);
    }
  }

  /**
   When the completion of a node completes the run: after the creation of a run and any node events, the last of which
   completes a node, the status is completed exactly when no event is still open and no node is left queued or running.
   */
  lemma RunCompletes(start: RunState, init: seq<Event>, last: Event)
    requires start.pending.None? && last.NodeEvent? && last.nodeKind == NodeCompleted
    requires forall e :: e in init ==> e.NodeEvent?
    requires ReduceAll(Some(start), init).value.status != RunCompleted
    ensures var t := ReduceAll(Some(start), init + [last]).value;
      t.status == RunCompleted <==> !HasOpen(init + [last]) && !HasActive(t.nodes)
  {
    assert (init + [last])[..|init|] == init;
    PendingIsOpen(start, init + [last]);
    StatusAfterNodeEvent(ReduceAll(Some(start), init), last);
  }

  /** Some event says that the node has ended. */
  predicate Ended(es: seq<Event>, node: string)
    requires forall e :: e in es ==> e.NodeEvent?
  {
    exists e :: e in es && e.snapshot.nodeId == node && Terminal(e.snapshot.status)
  }

  predicate Named(es: seq<Event>, node: string)
    requires forall e :: e in es ==> e.NodeEvent?
  {
    exists e :: e in es && e.snapshot.nodeId == node
  }

  lemma {:induction false} OnlyNamedNodes(start: RunState, es: seq<Event>, node: string)
    requires start.nodes == map[] && forall e :: e in es ==> e.NodeEvent?
    ensures node in ReduceAll(Some(start), es).value.nodes <==> Named(es, node)
  {
    if es != [] {
      var init, e := es[..|es| - 1], es[|es| - 1];
      assert forall d :: d in es <==> d in init || d == e;
      OnlyNamedNodes(start, init, node);
      NodeEventChangesItsNode(ReduceAll(Some(start), init), e);
    }
  }

  lemma EndedNodesAreNotActive(start: RunState, es: seq<Event>)
    requires start.nodes == map[] && forall e :: e in es ==> e.NodeEvent?
    requires forall e :: e in es ==> Ended(es, e.snapshot.nodeId)
    ensures !HasActive(ReduceAll(Some(start), es).value.nodes)
  {
    var t := ReduceAll(Some(start), es);
    forall n | n in t.value.nodes ensures !Active(t.value.nodes[n].status) {
      OnlyNamedNodes(start, es, n);
      NodeEventsJoin(Some(start), es, n);
      var e :| e in es && e.snapshot.nodeId == n;
      assert Ended(es, e.snapshot.nodeId);
    }
  }

  /** From creation to completion, in whatever order the events came: when every node that was named has ended and
      nothing is open, a last event that completes a node leaves the run completed. */
  lemma FinishedRunIsCompleted(start: RunState, init: seq<Event>, last: Event)
    requires start.pending.None? && start.nodes == map[] && last.NodeEvent? && last.nodeKind == NodeCompleted
    requires forall e :: e in init ==> e.NodeEvent?
    requires forall e :: e in init + [last] ==> Ended(init + [last], e.snapshot.nodeId)
    requires !HasOpen(init + [last])
    ensures ReduceAll(Some(start), init + [last]).value.status == RunCompleted
  {
    assert (init + [last])[..|init|] == init;
    PendingIsOpen(start, init + [last]);
    EndedNodesAreNotActive(start, init + [last]);
    var before := ReduceAll(Some(start), init);
    assert Finished(Reduce(before, last));
    if before.value.status == RunCompleted {
      CompletedRunAfterNodeEvent(before.value, last);
    } else {
      StatusAfterNodeEvent(before, last);
    }
  }

  // ---------------------------------------------------------------- invocation records

  predicate UniqueInvocations(s: seq<Invocation>) {
    forall i, j :: 0 <= i < j < |s| ==> s[i].invocationId != s[j].invocationId
  }

  /** The loop that replaces or appends an invocation record; ids stay unique and the other records stay put. */
  method MergeConnectionInvocation(existing: seq<Invocation>, record: Invocation) returns (next: seq<Invocation>)
    ensures next == PutInvocation(existing, record)
    ensures |existing| <= |next| <= |existing| + 1
    ensures forall i :: 0 <= i < |existing| ==>
      next[i] == if existing[i].invocationId == record.invocationId then record else existing[i]
    ensures record in next
    ensures UniqueInvocations(existing) ==> UniqueInvocations(next)
  {
    next := [];
    var replaced := false;
    for i := 0 to |existing|
      invariant next == ReplaceInvocation(existing[..i], record)
      invariant replaced <==> HasInvocation(existing[..i], record.invocationId)
      invariant replaced ==> record in next
    {
      if existing[i].invocationId == record.invocationId {
        next := next + [record];
        replaced := true;
        assert existing[..i + 1][i].invocationId == record.invocationId;
      } else {
        next := next + [existing[i]];
        if HasInvocation(existing[..i + 1], record.invocationId) {
          var k :| 0 <= k < i && existing[..i + 1][k].invocationId == record.invocationId;
          assert existing[..i][k].invocationId == record.invocationId;
        }
        if replaced {
          var k :| 0 <= k < i && existing[..i][k].invocationId == record.invocationId;
          assert existing[..i + 1][k].invocationId == record.invocationId;
        }
      }
      assert next == ReplaceInvocation(existing[..i + 1], record);
    }
    assert existing[..|existing|] == existing;
    if !replaced {
      next := next + [record];
      assert ReplaceInvocation(existing, record) == existing;
    }
  }

  // ---------------------------------------------------------------- the reducer as the source runs it

  lemma CountItemsWithout(r: Record, p: string)
    requires p in r
    ensures CountItems(r) == |r[p]| + CountItems(r - {p})
    decreases |r|
  {
    var q :| q in r && CountItems(r) == |r[q]| + CountItems(r - {q});
    if q != p {
      assert (r - {q}).Keys == r.Keys - {q} && (r - {p}).Keys == r.Keys - {p};
      assert |(r - {q}).Keys| == |r.Keys| - 1 && |(r - {p}).Keys| == |r.Keys| - 1;
      CountItemsWithout(r - {q}, p);
      CountItemsWithout(r - {p}, q);
      assert r - {q} - {p} == r - {p} - {q};
    }
  }

  method SumItems(r: Record) returns (n: nat)
    ensures n == CountItems(r)
  {
    n := 0;
    var rest := r;
    while rest != map[]
      invariant n + CountItems(rest) == CountItems(r)
      decreases |rest|
    {
      var p :| p in rest;
      CountItemsWithout(rest, p);
      assert (rest - {p}).Keys == rest.Keys - {p};
      n := n + |rest[p]|;
      rest := rest - {p};
    }
  }

  method MergeSavedNodes(current: map<string, Snapshot>, saved: map<string, Snapshot>)
    returns (merged: map<string, Snapshot>)
    ensures merged == MergeNodeMaps(current, saved)
  {
    merged := map[];
    var todo := saved.Keys;
    while todo != {}
      invariant todo <= saved.Keys && merged.Keys == saved.Keys - todo
      invariant forall n :: n in merged ==> merged[n] == MergeSnapshot(Lookup(current, n), saved[n])
    {
      var node :| node in todo;
      merged := merged[node := MergeSnapshot(Lookup(current, node), saved[node])];
      todo := todo - {node};
    }
  }

  method ReduceNodeEvent(current: Option<RunState>, e: Event) returns (next: RunState)
    requires e.NodeEvent?
    ensures next == Reduce(current, e)
  {
    var base := NodeBase(current, e);
    var nodes := NextNodes(base, e);
    var pending := base.pending;
    if e.nodeKind == NodeQueued || e.nodeKind == NodeStarted {
      var ports := e.snapshot.inputsByPort.GetOr(map[]);
      var itemsIn := SumItems(ports);
      pending := Some(PendingExecution(
        e.runId, e.snapshot.activationId.GetOr("live_" + e.snapshot.nodeId), e.workflowId, e.snapshot.nodeId,
        itemsIn, ports, e.snapshot.queuedAt.GetOr(e.at)));
    } else if base.pending.Some? && base.pending.value.nodeId == e.snapshot.nodeId {
      pending := None;
    }
    var status := RunPending;
    if e.nodeKind == NodeFailed {
      status := RunFailed;
    } else if e.nodeKind == NodeCompleted {
      status := if pending.None? && !HasActive(nodes) then RunCompleted else base.status;
    }
    next := base.(parent := OrElse(base.parent, e.parent), status := status, pending := pending,
                  outputsByNode := NextOutputs(base, e), nodes := nodes);
  }

  method ReduceWorkflowEvent(current: Option<RunState>, e: Event) returns (next: RunState)
    ensures next == Reduce(current, e)
  {
    match e
    case RunCreated(_, _, _, _) =>
      next := EmptyRun(e, RunRunning);
    case RunSaved(_, _, _, _, state) =>
      if current.None? { return state; }
      var merged := MergeSavedNodes(current.value.nodes, state.nodes);
      next := state.(nodes := merged);
    case NodeEvent(_, _, _, _, _, _) =>
      next := ReduceNodeEvent(current, e);
    case InvocationEvent(_, _, _, _, _, record) =>
      var base := current.GetOr(EmptyRun(e, RunPending));
      var records := MergeConnectionInvocation(base.invocations.GetOr([]), record);
      next := base.(parent := OrElse(base.parent, e.parent), invocations := Some(records));
  }
}

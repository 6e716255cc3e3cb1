/**
 The two query caches that realtime events update: the state of each run, and per workflow the list of run
 summaries. They are written separately, and invocation events skip the list, so that they agree has to be proved.
 */
module RunCaches {
  import opened Wrappers
  import opened RunSnapshots
  import opened RunReducer

  /** Without the finish time, which a helper that is not part of this model computes from the run state. */
  datatype Summary = Summary(
    runId: string,
    workflowId: string,
    startedAt: int,
    status: RunStatus,
    parent: Option<ParentRef>,
    executionOptions: Option<string>
  )

  function ToSummary(s: RunState): Summary {
    Summary(s.runId, s.workflowId, s.startedAt, s.status, s.parent, s.executionOptions)
  }

  // ---------------------------------------------------------------- the sorted list of one workflow

  predicate NewestFirst(s: seq<Summary>) {
    forall i, j :: 0 <= i < j < |s| ==> s[i].startedAt >= s[j].startedAt
  }

  predicate UniqueRuns(s: seq<Summary>) {
    forall i, j :: 0 <= i < j < |s| ==> s[i].runId != s[j].runId
  }

  /** Stable insertion: before the first entry that did not start later. */
  function Insert(x: Summary, s: seq<Summary>): seq<Summary> {
    if s == [] || s[0].startedAt <= x.startedAt then [x] + s
    else [s[0]] + Insert(x, s[1..])
  }

  /** The library's stable sort, latest start first. */
  function SortNewestFirst(s: seq<Summary>): seq<Summary> {
    if s == [] then [] else Insert(s[0], SortNewestFirst(s[1..]))
  }

  ghost predicate SameMembers(s: seq<Summary>, t: seq<Summary>) {
    |s| == |t| && forall x :: x in s <==> x in t
  }

  lemma {:induction false} InsertMembers(x: Summary, s: seq<Summary>)
    ensures SameMembers(Insert(x, s), [x] + s)
  {
    if s != [] && s[0].startedAt > x.startedAt {
      InsertMembers(x, s[1..]);
      assert s == [s[0]] + s[1..];
      assert forall y :: y in Insert(x, s[1..]) <==> y in [x] + s[1..];
    }
  }

  lemma {:induction false} InsertKeeps(x: Summary, s: seq<Summary>)
    requires NewestFirst(s) && UniqueRuns(s) && forall y :: y in s ==> y.runId != x.runId
    ensures NewestFirst(Insert(x, s)) && UniqueRuns(Insert(x, s))
  {
    if s != [] && s[0].startedAt > x.startedAt {
      InsertKeeps(x, s[1..]);
      InsertMembers(x, s[1..]);
      var rest := Insert(x, s[1..]);
      forall j | 0 <= j < |rest| ensures s[0].startedAt >= rest[j].startedAt && s[0].runId != rest[j].runId {
        assert rest[j] in [x] + s[1..];
      }
    }
  }

  /** Sorting a list with one entry per run keeps its entries and puts the latest start first. */
  lemma {:induction false} SortedList(s: seq<Summary>)
    requires UniqueRuns(s)
    ensures SameMembers(SortNewestFirst(s), s)
    ensures NewestFirst(SortNewestFirst(s)) && UniqueRuns(SortNewestFirst(s))
  {
    if s != [] {
      var rest := SortNewestFirst(s[1..]);
      SortedList(s[1..]);
      InsertMembers(s[0], rest);
      assert s == [s[0]] + s[1..];
      forall y | y in rest ensures y.runId != s[0].runId {
        assert y in s[1..];
      }
      InsertKeeps(s[0], rest);
    }
  }

  predicate Lists(s: seq<Summary>, runId: string) {
    exists i :: 0 <= i < |s| && s[i].runId == runId
  }

  function IndexOf(s: seq<Summary>, runId: string): (i: nat)
    ensures i <= |s| && (i < |s| ==> s[i].runId == runId)
    ensures forall j :: 0 <= j < i ==> s[j].runId != runId
  {
    if s == [] || s[0].runId == runId then 0
    else
      var rest := IndexOf(s[1..], runId);
      assert forall j :: 1 <= j < 1 + rest ==> s[j] == s[1..][j - 1];
      1 + rest
  }

  function PutSummary(s: seq<Summary>, x: Summary): seq<Summary> {
    var i := IndexOf(s, x.runId);
    SortNewestFirst(if i < |s| then s[i := x] else [x] + s)
  }

  /** Lists from the cache have one entry per run; the merge then replaces or adds one entry and sorts. */
  method MergeRunSummaryList(existing: Option<seq<Summary>>, summary: Summary) returns (list: seq<Summary>)
    ensures list == PutSummary(existing.GetOr([]), summary)
    ensures UniqueRuns(existing.GetOr([])) ==> NewestFirst(list) && UniqueRuns(list)
    ensures UniqueRuns(existing.GetOr([])) ==> forall x ::
      x in list <==> x == summary || (x in existing.GetOr([]) && x.runId != summary.runId)
  {
    var current := existing.GetOr([]);
    var index := 0;
    while index < |current| && current[index].runId != summary.runId
      invariant 0 <= index <= |current|
      invariant forall j :: 0 <= j < index ==> current[j].runId != summary.runId
    {
      index := index + 1;
    }
    if UniqueRuns(current) {
      PutKeepsTheOthers(current, summary);
    }
    if index < |current| {
      current := current[index := summary];
    } else {
      current := [summary] + current;
    }
    list := SortNewestFirst(current);
  }

  lemma PutMembers(s: seq<Summary>, x: Summary, t: seq<Summary>)
    requires UniqueRuns(s)
    requires t == var i := IndexOf(s, x.runId); if i < |s| then s[i := x] else [x] + s
    ensures UniqueRuns(t)
    ensures forall y :: y in t <==> y == x || (y in s && y.runId != x.runId)
  {
    var i := IndexOf(s, x.runId);
    if i < |s| {
      PutReplaces(s, x, i);
    } else {
      PutAdds(s, x);
    }
  }

  lemma PutReplaces(s: seq<Summary>, x: Summary, i: nat)
    requires UniqueRuns(s) && i < |s| && s[i].runId == x.runId
    ensures UniqueRuns(s[i := x])
    ensures forall y :: y in s[i := x] <==> y == x || (y in s && y.runId != x.runId)
  {
    var t := s[i := x];
    forall y | y in s && y.runId != x.runId ensures y in t {
      var k :| 0 <= k < |s| && s[k] == y;
      assert t[k] == y;
    }
    forall k | 0 <= k < |t| ensures t[k] == x || (t[k] in s && t[k].runId != x.runId) {
      if k != i {
        assert t[k] == s[k];
      }
    }
    assert t[i] == x;
  }

  lemma PutAdds(s: seq<Summary>, x: Summary)
    requires UniqueRuns(s) && forall k :: 0 <= k < |s| ==> s[k].runId != x.runId
    ensures UniqueRuns([x] + s)
    ensures forall y :: y in [x] + s <==> y == x || (y in s && y.runId != x.runId)
  {
    var t := [x] + s;
    assert t[0] == x && forall k :: 0 < k < |t| ==> t[k] == s[k - 1];
    forall y | y in s ensures y.runId != x.runId {
      var k :| 0 <= k < |s| && s[k] == y;
    }
  }

  lemma {:induction false} SortedStays(s: seq<Summary>)
    requires NewestFirst(s)
    ensures SortNewestFirst(s) == s
  {
    if s != [] {
      SortedStays(s[1..]);
    }
  }

  lemma {:induction false} InsertPlace(x: Summary, s: seq<Summary>) returns (k: nat)
    requires NewestFirst(s)
    ensures k <= |s| && Insert(x, s) == s[..k] + [x] + s[k..]
    ensures (forall j :: 0 <= j < k ==> s[j].startedAt > x.startedAt)
    ensures (forall j :: k <= j < |s| ==> s[j].startedAt <= x.startedAt)
  {
    if s == [] || s[0].startedAt <= x.startedAt {
      k := 0;
    } else {
      var rest := InsertPlace(x, s[1..]);
      k := rest + 1;
      assert s == [s[0]] + s[1..];
    }
  }

  /** Where an entry lands: a known run that keeps its start time stays in place, a new run leads its ties. */
  lemma PutPlace(s: seq<Summary>, x: Summary) returns (k: nat)
    requires NewestFirst(s)
    ensures k <= |s|
    ensures Lists(s, x.runId) ==> k < |s| && s[k].runId == x.runId
    ensures Lists(s, x.runId) && s[k].startedAt == x.startedAt ==> PutSummary(s, x) == s[k := x]
    ensures !Lists(s, x.runId) ==>
      && PutSummary(s, x) == s[..k] + [x] + s[k..]
      && (forall j :: 0 <= j < k ==> s[j].startedAt > x.startedAt)
      && (forall j :: k <= j < |s| ==> s[j].startedAt <= x.startedAt)
  {
    k := IndexOf(s, x.runId);
    if k < |s| {
      if s[k].startedAt == x.startedAt {
        SortedStays(s[k := x]);
      }
    } else {
      SortedStays(s);
      assert ([x] + s)[1..] == s;
      k := InsertPlace(x, s);
    }
  }

  lemma PutFirst(x: Summary)
    ensures PutSummary([], x) == [x]
  {
    assert [] + [x] == [x] && [x][1..] == [];
    assert SortNewestFirst([x]) == Insert(x, SortNewestFirst([]));
  }

  lemma PutKeepsTheOthers(s: seq<Summary>, x: Summary)
    requires UniqueRuns(s)
    ensures UniqueRuns(PutSummary(s, x)) && NewestFirst(PutSummary(s, x))
    ensures forall y :: y in PutSummary(s, x) <==> y == x || (y in s && y.runId != x.runId)
  {
    var i := IndexOf(s, x.runId);
    var t := if i < |s| then s[i := x] else [x] + s;
    PutMembers(s, x, t);
    SortedList(t);
  }

  // ---------------------------------------------------------------- the caches

  datatype Caches = Caches(runs: map<string, RunState>, lists: map<string, seq<Summary>>)

  const EMPTY := Caches(map[], map[])

  ghost function NextRun(c: Caches, e: Event): RunState {
    Reduce(if e.RunCreated? then None else Lookup(c.runs, e.runId), e)
  }

  ghost function Apply(c: Caches, e: Event): Caches {
    if e.runId == "" then c
    else
      var next := NextRun(c, e);
      Caches(
        c.runs[e.runId := next],
        if e.InvocationEvent? then c.lists
        else c.lists[e.workflowId := PutSummary(Lookup(c.lists, e.workflowId).GetOr([]), ToSummary(next))])
  }

  ghost function ApplyAll(es: seq<Event>): Caches {
    if es == [] then EMPTY else Apply(ApplyAll(es[..|es| - 1]), es[|es| - 1])
  }

  /** The query client, holding both caches. */
  class QueryClient {
    var runs: map<string, RunState>
    var lists: map<string, seq<Summary>>

    constructor ()
      ensures Contents() == EMPTY
    {
      runs, lists := map[], map[];
    }

    function Contents(): Caches
      reads this
    {
      Caches(runs, lists)
    }

    method ApplyWorkflowEvent(e: Event)
      modifies this
      ensures Contents() == Apply(old(Contents()), e)
    {
      if e.runId == "" { return; }
      var next := ReduceWorkflowEvent(if e.RunCreated? then None else Lookup(runs, e.runId), e);
      runs := runs[e.runId := next];
      if !e.InvocationEvent? {
        var list := MergeRunSummaryList(Lookup(lists, e.workflowId), ToSummary(next));
        lists := lists[e.workflowId := list];
      }
    }
  }

  // ---------------------------------------------------------------- the caches agree

  /** Ids in the event agree with each other, and `owner` says which workflow each run belongs to. */
  predicate Consistent(e: Event, owner: map<string, string>) {
    && e.runId in owner && owner[e.runId] == e.workflowId
    && (e.RunSaved? ==> e.state.runId == e.runId && e.state.workflowId == e.workflowId)
  }

  /** A listed run shows what its cached state says, except for the parent. */
  predicate Shows(x: Summary, s: RunState) {
    && x.runId == s.runId && x.workflowId == s.workflowId
    && x.startedAt == s.startedAt && x.status == s.status && x.executionOptions == s.executionOptions
  }

  predicate RunsWellKeyed(c: Caches, owner: map<string, string>) {
    forall r :: r in c.runs ==>
      c.runs[r].runId == r && r in owner && owner[r] == c.runs[r].workflowId
  }

  predicate ListAgrees(c: Caches, w: string)
    requires w in c.lists
  {
    && NewestFirst(c.lists[w])
    && UniqueRuns(c.lists[w])
    && forall x :: x in c.lists[w] ==> x.workflowId == w && x.runId in c.runs && Shows(x, c.runs[x.runId])
  }

  predicate Agree(c: Caches, owner: map<string, string>) {
    RunsWellKeyed(c, owner) && forall w :: w in c.lists ==> ListAgrees(c, w)
  }

  lemma ReduceKeepsIds(s: Option<RunState>, e: Event)
    requires e.RunSaved? ==> e.state.runId == e.runId && e.state.workflowId == e.workflowId
    requires s.Some? ==> s.value.runId == e.runId && s.value.workflowId == e.workflowId
    ensures Reduce(s, e).runId == e.runId && Reduce(s, e).workflowId == e.workflowId
  {
  }

  /** A list the event does not rewrite still agrees. */
  lemma OtherListAgrees(c: Caches, e: Event, owner: map<string, string>, w: string)
    requires Agree(c, owner) && e.runId != "" && Consistent(e, owner)
    requires w in c.lists && (w != e.workflowId || e.InvocationEvent?)
    ensures Apply(c, e).lists[w] == c.lists[w] && ListAgrees(Apply(c, e), w)
  {
    var after := Apply(c, e);
    assert after.lists[w] == c.lists[w] && ListAgrees(c, w);
    forall x | x in c.lists[w] ensures x.runId in after.runs && Shows(x, after.runs[x.runId]) {
      assert Shows(x, c.runs[x.runId]);
      if x.runId == e.runId {
        assert e.InvocationEvent?;
      }
    }
  }

  lemma RewrittenListAgrees(c: Caches, e: Event, owner: map<string, string>)
    requires Agree(c, owner) && e.runId != "" && Consistent(e, owner) && !e.InvocationEvent?
    ensures ListAgrees(Apply(c, e), e.workflowId)
  {
    var known, next := Lookup(c.lists, e.workflowId).GetOr([]), NextRun(c, e);
    ReduceKeepsIds(if e.RunCreated? then None else Lookup(c.runs, e.runId), e);
    assert e.workflowId in c.lists ==> ListAgrees(c, e.workflowId);
    PutKeepsTheOthers(known, ToSummary(next));
    assert Apply(c, e).lists[e.workflowId] == PutSummary(known, ToSummary(next));
  }

  lemma ApplyKeepsAgreement(c: Caches, e: Event, owner: map<string, string>)
    requires Agree(c, owner) && (e.runId != "" ==> Consistent(e, owner))
    ensures Agree(Apply(c, e), owner)
  {
    if e.runId != "" {
      var after := Apply(c, e);
      ReduceKeepsIds(if e.RunCreated? then None else Lookup(c.runs, e.runId), e);
      forall w | w in after.lists ensures ListAgrees(after, w) {
        if w != e.workflowId || e.InvocationEvent? {
          OtherListAgrees(c, e, owner, w);
        } else {
          RewrittenListAgrees(c, e, owner);
        }
      }
    }
  }

  /** After any history of events with consistent ids, every run list agrees with the cached run states. */
  lemma {:induction false} CachesAgree(es: seq<Event>, owner: map<string, string>)
    requires forall e :: e in es && e.runId != "" ==> Consistent(e, owner)
    ensures Agree(ApplyAll(es), owner)
  {
    if es != [] {
      CachesAgree(es[..|es| - 1], owner);
      ApplyKeepsAgreement(ApplyAll(es[..|es| - 1]), es[|es| - 1], owner);
    }
  }

  predicate ListsRun(c: Caches, runId: string, w: string) {
    w in c.lists && Lists(c.lists[w], runId)
  }

  /** A run is listed under its workflow exactly when some event other than an invocation named it. */
  lemma {:induction false} ListedRuns(es: seq<Event>, owner: map<string, string>, runId: string)
    requires runId != "" && runId in owner
    requires forall e :: e in es && e.runId != "" ==> Consistent(e, owner)
    ensures ListsRun(ApplyAll(es), runId, owner[runId]) <==>
      exists e :: e in es && e.runId == runId && !e.InvocationEvent?
  {
    if es != [] {
      var init, e := es[..|es| - 1], es[|es| - 1];
      var c := ApplyAll(init);
      ListedRuns(init, owner, runId);
      CachesAgree(init, owner);
      assert es == init + [e];
      assert forall f :: f in es <==> f in init || f == e;
      if e.runId != "" && !e.InvocationEvent? && e.workflowId == owner[runId] {
        var known, next := Lookup(c.lists, e.workflowId).GetOr([]), NextRun(c, e);
        ReduceKeepsIds(if e.RunCreated? then None else Lookup(c.runs, e.runId), e);
        PutKeepsTheOthers(known, ToSummary(next));
        ListedByMembership(known, runId);
        ListedByMembership(PutSummary(known, ToSummary(next)), runId);
      }
    }
  }

  lemma ListedByMembership(s: seq<Summary>, runId: string)
    ensures Lists(s, runId) <==> exists x :: x in s && x.runId == runId
  {
  }

  // ---------------------------------------------------------------- the parent of a listed run

  predicate ParentsAgree(c: Caches) {
    forall w, x :: w in c.lists && x in c.lists[w] ==> x.runId in c.runs && x.parent == c.runs[x.runId].parent
  }

  /** An invocation event sets the cached parent of a listed run, and leaves the list alone. */
  predicate SetsUnlistedParent(c: Caches, e: Event) {
    && e.InvocationEvent? && e.parent.Some?
    && ListsRun(c, e.runId, e.workflowId) && e.runId in c.runs && c.runs[e.runId].parent.None?
  }

  lemma ParentsStay(c: Caches, e: Event, owner: map<string, string>, w: string, x: Summary)
    requires Agree(c, owner) && e.runId != "" && Consistent(e, owner)
    requires ParentsAgree(c) && !SetsUnlistedParent(c, e)
    requires w in Apply(c, e).lists && x in Apply(c, e).lists[w]
    ensures x.runId in Apply(c, e).runs && x.parent == Apply(c, e).runs[x.runId].parent
  {
    ApplyKeepsAgreement(c, e, owner);
    if w == e.workflowId && !e.InvocationEvent? {
      var known, next := Lookup(c.lists, w).GetOr([]), NextRun(c, e);
      ReduceKeepsIds(if e.RunCreated? then None else Lookup(c.runs, e.runId), e);
      assert w in c.lists ==> ListAgrees(c, w);
      PutKeepsTheOthers(known, ToSummary(next));
    } else {
      assert x in c.lists[w] && ListAgrees(c, w);
      if x.runId == e.runId {
        assert w == owner[x.runId] == e.workflowId;
        ListedByMembership(c.lists[w], x.runId);
      }
    }
  }

  /** From caches whose parents agree, an event keeps them so exactly when it does not set a parent past the list. */
  lemma ParentsAgreeAfter(c: Caches, e: Event, owner: map<string, string>)
    requires Agree(c, owner) && e.runId != "" && Consistent(e, owner) && ParentsAgree(c)
    ensures ParentsAgree(Apply(c, e)) <==> !SetsUnlistedParent(c, e)
  {
    if SetsUnlistedParent(c, e) {
      var i :| 0 <= i < |c.lists[e.workflowId]| && c.lists[e.workflowId][i].runId == e.runId;
      var x := c.lists[e.workflowId][i];
      assert x in c.lists[e.workflowId] && x.parent.None?;
      assert x in Apply(c, e).lists[e.workflowId];
    } else {
      forall w, x | w in Apply(c, e).lists && x in Apply(c, e).lists[w]
        ensures x.runId in Apply(c, e).runs && x.parent == Apply(c, e).runs[x.runId].parent
      {
        ParentsStay(c, e, owner, w, x);
      }
    }
  }

  predicate ListedParentIs(c: Caches, runId: string, parent: Option<ParentRef>) {
    forall w, x :: w in c.lists && x in c.lists[w] && x.runId == runId ==> x.parent == parent
  }

  predicate BringsParent(es: seq<Event>, runId: string) {
    exists i :: 0 <= i < |es| && es[i].runId == runId && es[i].parent.Some?
  }

  /** An event that does not list a run leaves its listed parent as it is, and can only set the cached one. */
  lemma ListedParentStays(c: Caches, e: Event, owner: map<string, string>, runId: string, parent: Option<ParentRef>)
    requires Agree(c, owner) && (e.runId != "" ==> Consistent(e, owner))
    requires runId != "" && (e.runId == runId ==> e.InvocationEvent?)
    requires runId in c.runs && ListedParentIs(c, runId, parent)
    ensures ListedParentIs(Apply(c, e), runId, parent)
    ensures runId in Apply(c, e).runs && Apply(c, e).runs[runId].parent ==
      if e.runId == runId then OrElse(c.runs[runId].parent, e.parent) else c.runs[runId].parent
  {
    if e.runId != "" && !e.InvocationEvent? {
      var known, next := Lookup(c.lists, e.workflowId).GetOr([]), NextRun(c, e);
      ReduceKeepsIds(if e.RunCreated? then None else Lookup(c.runs, e.runId), e);
      assert e.workflowId in c.lists ==> ListAgrees(c, e.workflowId);
      PutKeepsTheOthers(known, ToSummary(next));
    }
  }

  lemma ListingEventShowsParent(c: Caches, e: Event, owner: map<string, string>)
    requires Agree(c, owner) && e.runId != "" && Consistent(e, owner) && !e.InvocationEvent?
    ensures ListedParentIs(Apply(c, e), e.runId, NextRun(c, e).parent)
  {
    var known, next := Lookup(c.lists, e.workflowId).GetOr([]), NextRun(c, e);
    ReduceKeepsIds(if e.RunCreated? then None else Lookup(c.runs, e.runId), e);
    assert e.workflowId in c.lists ==> ListAgrees(c, e.workflowId);
    PutKeepsTheOthers(known, ToSummary(next));
    ApplyKeepsAgreement(c, e, owner);
    forall w, x | w in Apply(c, e).lists && x in Apply(c, e).lists[w] && x.runId == e.runId
      ensures x.parent == next.parent
    {
      assert ListAgrees(Apply(c, e), w);
      assert w == owner[x.runId] == e.workflowId;
    }
  }

  lemma PrefixOf(first: seq<Event>, init: seq<Event>, e: Event, after: seq<Event>)
    requires after == init + [e]
    ensures (first + after)[..|first + after| - 1] == first + init
    ensures e in first + after && forall d :: d in first + init ==> d in first + after
    ensures ApplyAll(first + after) == Apply(ApplyAll(first + init), e)
  {
    assert (first + after)[..|first + after| - 1] == first + init;
    assert first + after == first + init + [e];
  }

  lemma BringsParentLast(init: seq<Event>, e: Event, runId: string)
    ensures BringsParent(init + [e], runId) <==> BringsParent(init, runId) || (e.runId == runId && e.parent.Some?)
  {
    var es := init + [e];
    assert es[|init|] == e && forall i :: 0 <= i < |init| ==> es[i] == init[i];
  }

  /** After the last event that lists a run, the listed parent stays, and the cached one is that or a later one. */
  lemma {:induction false} ParentAfterListing(
    before: seq<Event>, x: Event, after: seq<Event>, owner: map<string, string>)
    requires x.runId != "" && !x.InvocationEvent?
    requires forall e :: e in before + [x] + after && e.runId != "" ==> Consistent(e, owner)
    requires forall e :: e in after && e.runId == x.runId ==> e.InvocationEvent?
    ensures x.runId in ApplyAll(before + [x]).runs && x.runId in ApplyAll(before + [x] + after).runs
    ensures var parent, c := ApplyAll(before + [x]).runs[x.runId].parent, ApplyAll(before + [x] + after);
      && ListedParentIs(c, x.runId, parent)
      && (parent.Some? ==> c.runs[x.runId].parent == parent)
      && (c.runs[x.runId].parent.Some? <==> parent.Some? || BringsParent(after, x.runId))
    decreases |after|
  {
    var first := before + [x];
    assert first[..|first| - 1] == before;
    assert x in first + after;
    if after == [] {
      assert first + after == first;
      assert forall e :: e in before ==> e in first + after;
      CachesAgree(before, owner);
      ListingEventShowsParent(ApplyAll(before), x, owner);
    } else {
      var init, e := after[..|after| - 1], after[|after| - 1];
      BringsParentLast(init, e, x.runId);
      assert after == init + [e];
      PrefixOf(first, init, e, after);
      ParentAfterListing(before, x, init, owner);
      CachesAgree(first + init, owner);
      ListedParentStays(ApplyAll(first + init), e, owner, x.runId, ApplyAll(first).runs[x.runId].parent);
    }
  }

  /**
   Over every history: when `x` is the last event that lists a run, the list shows the run's cached parent exactly when
   the run had a parent by then or no later invocation event brings one.
   */
  lemma ListedParentOverHistory(before: seq<Event>, x: Event, after: seq<Event>, owner: map<string, string>)
    requires x.runId != "" && !x.InvocationEvent?
    requires forall e :: e in before + [x] + after && e.runId != "" ==> Consistent(e, owner)
    requires forall e :: e in after && e.runId == x.runId ==> e.InvocationEvent?
    ensures x.runId in ApplyAll(before + [x]).runs && x.runId in ApplyAll(before + [x] + after).runs
    ensures var c := ApplyAll(before + [x] + after);
      && ListsRun(c, x.runId, x.workflowId)
      && (ListedParentIs(c, x.runId, c.runs[x.runId].parent) <==>
            ApplyAll(before + [x]).runs[x.runId].parent.Some? || !BringsParent(after, x.runId))
  {
    ParentAfterListing(before, x, after, owner);
    assert x in before + [x] + after;
    ListedRuns(before + [x] + after, owner, x.runId);
    var c := ApplyAll(before + [x] + after);
    var i :| 0 <= i < |c.lists[x.workflowId]| && c.lists[x.workflowId][i].runId == x.runId;
    assert c.lists[x.workflowId][i] in c.lists[x.workflowId];
  }

  /** The parent is the exception: an invocation event may set it in the run state and leaves the list alone. */
  lemma ListedParentMayBeStale() returns (es: seq<Event>)
    ensures forall e :: e in es ==> Consistent(e, map["r" := "w"])
    ensures var c := ApplyAll(es);
      "w" in c.lists && |c.lists["w"]| == 1 && "r" in c.runs && c.lists["w"][0].parent != c.runs["r"].parent
  {
    var created := RunCreated("r", "w", None, 0);
    var parent := ParentRef("p", "w", "n");
    var invoked := InvocationEvent("r", "w", Some(parent), 1, InvocationStarted, Invocation("i", Running, ""));
    es := [created, invoked];
    assert es[..1] == [created] && [created][..0] == [];
    assert ApplyAll([created]) == Apply(EMPTY, created);
    assert ApplyAll(es) == Apply(Apply(EMPTY, created), invoked);
    PutFirst(ToSummary(NextRun(EMPTY, created)));
  }

  // ---------------------------------------------------------------- one workflow per run

  predicate SameSummary(s: RunState, t: RunState) {
    && s.runId == t.runId && s.workflowId == t.workflowId && s.startedAt == t.startedAt
    && s.status == t.status && s.executionOptions == t.executionOptions
  }

  /** An event that names a listed run under another workflow leaves the run's list in agreement exactly when it
      changes nothing that a summary shows. */
  lemma ForeignEventLeavesListStale(c: Caches, e: Event, owner: map<string, string>)
    requires Agree(c, owner) && e.runId != "" && e.runId in owner && e.workflowId != owner[e.runId]
    requires ListsRun(c, e.runId, owner[e.runId])
    ensures e.runId in c.runs && owner[e.runId] in Apply(c, e).lists
    ensures ListAgrees(Apply(c, e), owner[e.runId]) <==> SameSummary(NextRun(c, e), c.runs[e.runId])
  {
    var w := owner[e.runId];
    var list, after := c.lists[w], Apply(c, e);
    assert ListAgrees(c, w) && after.lists[w] == list;
    var i :| 0 <= i < |list| && list[i].runId == e.runId;
    assert list[i] in list;
    if SameSummary(NextRun(c, e), c.runs[e.runId]) {
      forall x | x in list ensures x.runId in after.runs && Shows(x, after.runs[x.runId]) {
        assert Shows(x, c.runs[x.runId]);
      }
    }
  }

  /** Without one workflow per run the lists go stale: the first workflow keeps showing the run's old status. */
  lemma OneWorkflowPerRunIsNeeded() returns (es: seq<Event>)
    ensures forall e :: e in es ==> e.RunCreated? || e.NodeEvent?
    ensures var c := ApplyAll(es);
      && "w" in c.lists && |c.lists["w"]| == 1 && c.lists["w"][0].runId == "r"
      && "r" in c.runs && c.lists["w"][0].status != c.runs["r"].status
  {
    var created := RunCreated("r", "w", None, 0);
    var failed := NodeEvent("r", "v", None, 1, NodeFailed, Snapshot("n", Failed, None, None, None, None, ""));
    es := [created, failed];
    assert es[..1] == [created] && [created][..0] == [];
    assert ApplyAll([created]) == Apply(EMPTY, created);
    assert ApplyAll(es) == Apply(Apply(EMPTY, created), failed);
    PutFirst(ToSummary(NextRun(EMPTY, created)));
  }
}

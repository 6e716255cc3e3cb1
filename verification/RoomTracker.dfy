/**
 Reference counts of run rooms. The counts live in a JavaScript Map, so they have an order: a key keeps its place until
 it is deleted, and a new key goes to the end.
 */
module RoomTracker {

  datatype Callback = Activated(room: string) | Deactivated(room: string)

  /** `order` lists the keys of `counts` in insertion order; `calls` are the callbacks fired so far. */
  datatype State = State(order: seq<string>, counts: map<string, nat>, calls: seq<Callback>)

  const EMPTY := State([], map[], [])

  datatype Op = Retain(room: string) | Release(room: string)

  function Count(s: State, room: string): nat {
    if room in s.counts then s.counts[room] else 0
  }

  function Without(order: seq<string>, room: string): seq<string> {
    if order == [] then []
    else Without(order[..|order| - 1], room) + if order[|order| - 1] == room then [] else [order[|order| - 1]]
  }

  function Next(s: State, op: Op): State {
    var prev := Count(s, op.room);
    match op
    case Retain(room) =>
      State(if room in s.counts then s.order else s.order + [room],
            s.counts[room := prev + 1],
            if prev == 0 then s.calls + [Activated(room)] else s.calls)
    case Release(room) =>
      if prev <= 1 then
        State(Without(s.order, room), s.counts - {room}, if prev == 1 then s.calls + [Deactivated(room)] else s.calls)
      else s.(counts := s.counts[room := prev - 1])
  }

  function Run(ops: seq<Op>): State {
    if ops == [] then EMPTY else Next(Run(ops[..|ops| - 1]), ops[|ops| - 1])
  }

  // ---------------------------------------------------------------- the reference: counting each room by itself

  /** Subscribers of a room after a history, with releases of nobody ignored. */
  function Subscribers(ops: seq<Op>, room: string): nat {
    if ops == [] then 0
    else
      var before, op := Subscribers(ops[..|ops| - 1], room), ops[|ops| - 1];
      if op.room != room then before
      else if op.Retain? then before + 1
      else if before > 0 then before - 1 else 0
  }

  /** When the room last became active, as a position in the history; meaningful while it is active. */
  function ActiveSince(ops: seq<Op>, room: string): nat {
    if ops == [] then 0
    else
      var init, op := ops[..|ops| - 1], ops[|ops| - 1];
      if op == Retain(room) && Subscribers(init, room) == 0 then |init| else ActiveSince(init, room)
  }

  /** The callbacks for one room. */
  function CallsOf(calls: seq<Callback>, room: string): seq<Callback> {
    if calls == [] then []
    else CallsOf(calls[..|calls| - 1], room) + if calls[|calls| - 1].room == room then [calls[|calls| - 1]] else []
  }

  predicate Alternates(calls: seq<Callback>) {
    forall i :: 0 <= i < |calls| ==> (calls[i].Activated? <==> i % 2 == 0)
  }

  /** The map against the reference, for one room. */
  predicate Tracks(s: State, ops: seq<Op>, room: string) {
    && Count(s, room) == Subscribers(ops, room)
    && (room in s.counts <==> Subscribers(ops, room) > 0)
    && Alternates(CallsOf(s.calls, room))
    && (Subscribers(ops, room) > 0 <==> |CallsOf(s.calls, room)| % 2 == 1)
  }

  lemma CallsWith(calls: seq<Callback>, c: Callback, room: string)
    ensures CallsOf(calls + [c], room) == CallsOf(calls, room) + if c.room == room then [c] else []
  {
    assert (calls + [c])[..|calls|] == calls;
  }

  /** The callback that an operation fires, if any. */
  function Fires(s: State, op: Op): seq<Callback> {
    if op.Retain? && Count(s, op.room) == 0 then [Activated(op.room)]
    else if op.Release? && Count(s, op.room) == 1 then [Deactivated(op.room)]
    else []
  }

  lemma CallsAfter(s: State, op: Op, room: string)
    ensures CallsOf(Next(s, op).calls, room) == CallsOf(s.calls, room) + if op.room == room then Fires(s, op) else []
  {
    if Fires(s, op) != [] {
      CallsWith(s.calls, Fires(s, op)[0], room);
    }
  }

  lemma {:induction false} RoomIsTracked(ops: seq<Op>, room: string)
    ensures Tracks(Run(ops), ops, room)
  {
    if ops != [] {
      var init, op := ops[..|ops| - 1], ops[|ops| - 1];
      RoomIsTracked(init, room);
      StepIsTracked(Run(init), init, op, ops, room);
    }
  }

  lemma StepIsTracked(s: State, init: seq<Op>, op: Op, ops: seq<Op>, room: string)
    requires ops == init + [op] && Tracks(s, init, room)
    ensures Tracks(Next(s, op), ops, room)
  {
    assert ops[..|ops| - 1] == init;
    CallsAfter(s, op, room);
    if op.room != room {
      assert CallsOf(Next(s, op).calls, room) == CallsOf(s.calls, room);
    }
  }

  // ---------------------------------------------------------------- the order of active rooms

  /** `order` lists exactly the active rooms, each once, by the time they became active. */
  predicate OrderedByActivation(order: seq<string>, ops: seq<Op>) {
    && (forall i :: 0 <= i < |order| ==> Subscribers(ops, order[i]) > 0)
    && (forall i, j :: 0 <= i < j < |order| ==> ActiveSince(ops, order[i]) < ActiveSince(ops, order[j]))
  }

  predicate Complete(s: State) {
    && s.counts.Keys == (set room | room in s.order)
    && (forall i, j :: 0 <= i < j < |s.order| ==> s.order[i] != s.order[j])
  }

  lemma {:induction false} WithoutKeepsTheRest(order: seq<string>, room: string)
    requires forall i, j :: 0 <= i < j < |order| ==> order[i] != order[j]
    ensures var w := Without(order, room);
      && (forall x :: x in w <==> x in order && x != room)
      && (forall i, j :: 0 <= i < j < |w| ==> w[i] != w[j])
  {
    if order != [] {
      var init, last := order[..|order| - 1], order[|order| - 1];
      WithoutKeepsTheRest(init, room);
      assert order == init + [last];
      assert forall x :: x in order <==> x in init || x == last;
      assert last !in init;
    }
  }

  lemma {:induction false} WithoutKeepsOrder(order: seq<string>, room: string, ops: seq<Op>)
    requires OrderedByActivation(order, ops)
    ensures OrderedByActivation(Without(order, room), ops) && forall x :: x in Without(order, room) ==> x in order
  {
    if order != [] {
      var init, last := order[..|order| - 1], order[|order| - 1];
      assert order == init + [last];
      WithoutKeepsOrder(init, room, ops);
      forall i | 0 <= i < |Without(init, room)|
        ensures ActiveSince(ops, Without(init, room)[i]) < ActiveSince(ops, last)
      {
        assert Without(init, room)[i] in Without(init, room);
        var k :| 0 <= k < |init| && init[k] == Without(init, room)[i];
        assert order[k] == init[k];
      }
    }
  }

  lemma ActiveSinceIsPast(ops: seq<Op>, room: string)
    requires Subscribers(ops, room) > 0
    ensures ActiveSince(ops, room) < |ops|
  {
  }

  /** An operation on one room leaves the others alone. */
  lemma OthersUnchanged(init: seq<Op>, op: Op, order: seq<string>)
    requires OrderedByActivation(order, init) && forall r :: r in order ==> r != op.room
    ensures OrderedByActivation(order, init + [op])
  {
    assert (init + [op])[..|init|] == init;
    assert forall i :: 0 <= i < |order| ==> order[i] in order;
  }

  /** Neither does an operation on an active room that leaves it active. */
  lemma StaysActive(init: seq<Op>, op: Op, order: seq<string>)
    requires OrderedByActivation(order, init)
    requires Subscribers(init, op.room) > 0 && Subscribers(init + [op], op.room) > 0
    ensures OrderedByActivation(order, init + [op])
  {
    assert (init + [op])[..|init|] == init;
    forall i | 0 <= i < |order|
      ensures Subscribers(init + [op], order[i]) > 0
      ensures ActiveSince(init + [op], order[i]) == ActiveSince(init, order[i])
    {
    }
  }

  /** A room that becomes active goes last. */
  lemma NewestGoesLast(init: seq<Op>, op: Op, order: seq<string>)
    requires op.Retain? && Subscribers(init, op.room) == 0
    requires OrderedByActivation(order, init)
    ensures OrderedByActivation(order + [op.room], init + [op])
  {
    assert (init + [op])[..|init|] == init;
    assert forall i :: 0 <= i < |order| ==> order[i] != op.room;
    assert ActiveSince(init + [op], op.room) == |init|;
    forall i | 0 <= i < |order|
      ensures Subscribers(init + [op], order[i]) > 0
      ensures ActiveSince(init + [op], order[i]) == ActiveSince(init, order[i]) < |init|
    {
      ActiveSinceIsPast(init, order[i]);
    }
  }

  lemma RetainKeepsOrder(init: seq<Op>, op: Op)
    requires op.Retain? && Complete(Run(init)) && OrderedByActivation(Run(init).order, init)
    ensures Complete(Next(Run(init), op)) && OrderedByActivation(Next(Run(init), op).order, init + [op])
  {
    var s := Run(init);
    RoomIsTracked(init, op.room);
    assert (init + [op])[..|init|] == init;
    assert op.room in s.counts <==> op.room in s.order;
    if op.room in s.counts {
      assert s.counts[op.room := Count(s, op.room) + 1].Keys == s.counts.Keys;
      StaysActive(init, op, s.order);
    } else {
      NewestGoesLast(init, op, s.order);
    }
  }

  lemma LastReleaseKeepsOrder(s: State, init: seq<Op>, op: Op)
    requires op.Release? && Complete(s) && OrderedByActivation(s.order, init) && Count(s, op.room) <= 1
    ensures Complete(Next(s, op)) && OrderedByActivation(Next(s, op).order, init + [op])
  {
    WithoutKeepsTheRest(s.order, op.room);
    WithoutKeepsOrder(s.order, op.room, init);
    OthersUnchanged(init, op, Without(s.order, op.room));
  }

  lemma ReleaseKeepsOrder(init: seq<Op>, op: Op)
    requires op.Release? && Complete(Run(init)) && OrderedByActivation(Run(init).order, init)
    ensures Complete(Next(Run(init), op)) && OrderedByActivation(Next(Run(init), op).order, init + [op])
  {
    var s := Run(init);
    if Count(s, op.room) <= 1 {
      LastReleaseKeepsOrder(s, init, op);
    } else {
      RoomIsTracked(init, op.room);
      assert (init + [op])[..|init|] == init;
      assert Next(s, op).counts.Keys == s.counts.Keys;
      StaysActive(init, op, s.order);
    }
  }

  /** Over every history: `activeRunIds` lists the active rooms in the order of their latest activation. */
  lemma {:induction false} ActiveRoomsInOrder(ops: seq<Op>)
    ensures Complete(Run(ops)) && OrderedByActivation(Run(ops).order, ops)
    ensures forall room :: room in Run(ops).order <==> Subscribers(ops, room) > 0
  {
    if ops != [] {
      var init, op := ops[..|ops| - 1], ops[|ops| - 1];
      ActiveRoomsInOrder(init);
      assert ops == init + [op];
      if op.Retain? {
        RetainKeepsOrder(init, op);
      } else {
        ReleaseKeepsOrder(init, op);
      }
    }
    forall room ensures room in Run(ops).order <==> Subscribers(ops, room) > 0 {
      RoomIsTracked(ops, room);
    }
  }

  // ---------------------------------------------------------------- the tracker object

  class RunRoomSubscriptionTracker {
    var order: seq<string>
    var counts: map<string, nat>
    var calls: seq<Callback>

    constructor ()
      ensures Fields() == EMPTY
    {
      order, counts, calls := [], map[], [];
    }

    function Fields(): State
      reads this
    {
      State(order, counts, calls)
    }

    method RetainRoom(runId: string) returns (transitionedToActive: bool)
      modifies this
      ensures Fields() == Next(old(Fields()), Retain(runId))
      ensures transitionedToActive <==> Count(old(Fields()), runId) == 0
    {
      var prev := if runId in counts then counts[runId] else 0;
      if runId !in counts {
        order := order + [runId];
      }
      counts := counts[runId := prev + 1];
      transitionedToActive := prev == 0;
      if transitionedToActive {
        calls := calls + [Activated(runId)];
      }
    }

    method ReleaseRoom(runId: string) returns (transitionedToInactive: bool, remaining: nat)
      modifies this
      ensures Fields() == Next(old(Fields()), Release(runId))
      ensures transitionedToInactive <==> Count(old(Fields()), runId) == 1
      ensures remaining == Count(Fields(), runId)
    {
      var prev := if runId in counts then counts[runId] else 0;
      if prev <= 1 {
        order := Without(order, runId);
        counts := counts - {runId};
        if prev == 1 {
          calls := calls + [Deactivated(runId)];
        }
        return prev == 1, 0;
      }
      remaining := prev - 1;
      counts := counts[runId := remaining];
      transitionedToInactive := false;
    }

    method ActiveRunIds() returns (rooms: seq<string>)
      ensures rooms == Fields().order
    {
      rooms := order;
    }
  }
}

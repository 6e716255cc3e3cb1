/**
 Monotonic merging of node execution snapshots, as done by the realtime run cache.

 Events arrive out of order and more than once, so a node's status is clamped by rank and its ports
 keep the last items that were not empty. An object is handed back unchanged when nothing the canvas
 shows has changed, because the views compare by reference.
 */
module RunSnapshots {
  import opened Wrappers

  datatype Status =
    | Pending | Queued | Running | Completed | Skipped | HitlApproved | HitlAutoAccepted
    | Failed | HitlRejected | HitlTimeout | HitlCancelled

  /** How far a node has come; success outcomes share a rank, and so do failure outcomes. */
  function Rank(s: Status): nat {
    match s
    case Pending => 0
    case Queued => 1
    case Running => 2
    case Completed | Skipped | HitlApproved | HitlAutoAccepted => 3
    case Failed | HitlRejected | HitlTimeout | HitlCancelled => 4
  }

  predicate Terminal(s: Status) {
    Rank(s) >= 3
  }

  predicate Active(s: Status) {
    s == Queued || s == Running
  }

  datatype Item = Item(json: string)

  /** Items by port name; a port may be present with no items. */
  type Record = map<string, seq<Item>>

  datatype ParentRef = ParentRef(runId: string, workflowId: string, nodeId: string)

  /** `details` stands for the fields that are only ever copied (timestamps, error, child run, ...). */
  datatype Snapshot = Snapshot(
    nodeId: string,
    status: Status,
    activationId: Option<string>,
    queuedAt: Option<int>,
    inputsByPort: Option<Record>,
    outputs: Option<Record>,
    details: string
  )

  // ---------------------------------------------------------------- port records

  /** What the canvas shows of a record: the number of items on each port that has any. */
  function PortCounts(r: Option<Record>): map<string, nat> {
    match r
    case None => map[]
    case Some(ports) => map p | p in ports && |ports[p]| > 0 :: |ports[p]|
  }

  /** The number of items on a port; one that is absent has none. */
  function ItemsOn(r: Option<Record>, port: string): nat {
    if r.Some? && port in r.value then |r.value[port]| else 0
  }

  /** Records are shown alike exactly when they have the same number of items on every port. */
  lemma ShownAlike(a: Option<Record>, b: Option<Record>)
    ensures PortCounts(a) == PortCounts(b) <==> forall port :: ItemsOn(a, port) == ItemsOn(b, port)
  {
    ShowsItems(a);
    ShowsItems(b);
    if forall port :: ItemsOn(a, port) == ItemsOn(b, port) {
      assert forall port :: port in PortCounts(a) <==> ItemsOn(a, port) > 0;
      assert forall port :: port in PortCounts(b) <==> ItemsOn(a, port) > 0;
      assert PortCounts(a).Keys == PortCounts(b).Keys;
    }
  }

  lemma ShowsItems(r: Option<Record>)
    ensures forall port :: port in PortCounts(r) <==> ItemsOn(r, port) > 0
    ensures forall port :: ItemsOn(r, port) == if port in PortCounts(r) then PortCounts(r)[port] else 0
  {
  }

  function KeptPorts(prev: Record, next: Record): Record {
    map p | p in prev && |prev[p]| > 0 && (p !in next || |next[p]| == 0) :: prev[p]
  }

  function MergeRecords(prev: Option<Record>, next: Option<Record>): Option<Record> {
    if prev.None? then next
    else if next.None? then prev
    else Some(next.value + KeptPorts(prev.value, next.value))
  }

  method MergeItemRecordsMonotonic(prev: Option<Record>, next: Option<Record>) returns (merged: Option<Record>)
    ensures merged == MergeRecords(prev, next)
    ensures PortCounts(merged) == PortCounts(prev) + PortCounts(next)
  {
    if prev.None? || next.None? {
      MergedPortCounts(prev, next);
      return if prev.None? then next else prev;
    }
    ghost var kept := KeptPorts(prev.value, next.value);
    var result := next.value;
    var todo := prev.value.Keys;
    while todo != {}
      invariant todo <= prev.value.Keys
      invariant result.Keys == next.value.Keys + (kept.Keys - todo)
      invariant forall p :: p in result ==> result[p] == if p in kept && p !in todo then kept[p] else next.value[p]
    {
      var port :| port in todo;
      if |prev.value[port]| > 0 && (port !in next.value || |next.value[port]| == 0) {
        result := result[port := prev.value[port]];
      }
      todo := todo - {port};
    }
    assert result == next.value + kept;
    MergedPortCounts(prev, next);
    return Some(result);
  }

  /** A merge never empties a port: for each port the later non-empty count wins. */
  lemma MergedPortCounts(prev: Option<Record>, next: Option<Record>)
    ensures PortCounts(MergeRecords(prev, next)) == PortCounts(prev) + PortCounts(next)
  {
    if prev.Some? && next.Some? {
      var merged := MergeRecords(prev, next).value;
      forall p ensures p in PortCounts(Some(merged)) <==> p in PortCounts(prev) || p in PortCounts(next) {
      }
    }
  }

  /** Which items a port has after a merge: the new ones, unless there are none and there were some before. */
  lemma MergedItems(prev: Record, next: Record, port: string)
    ensures var merged := MergeRecords(Some(prev), Some(next));
      && merged.Some?
      && (port in merged.value <==> port in next || (port in prev && prev[port] != []))
      && (port in merged.value ==>
            merged.value[port] ==
              (if port in next && (next[port] != [] || port !in prev) then next[port] else prev[port]))
      && ItemsOn(merged, port) ==
           if ItemsOn(Some(next), port) > 0 then ItemsOn(Some(next), port) else ItemsOn(Some(prev), port)
  {
  }

  method RecordsAreCanvasEquivalent(a: Option<Record>, b: Option<Record>) returns (same: bool)
    ensures same <==> PortCounts(a) == PortCounts(b)
    ensures same <==> forall port :: ItemsOn(a, port) == ItemsOn(b, port)
  {
    ShownAlike(a, b);
    var aCounts, bCounts := PortCounts(a), PortCounts(b);
    if |aCounts| != |bCounts| {
      return false;
    }
    var todo := aCounts.Keys;
    while todo != {}
      invariant todo <= aCounts.Keys
      invariant forall p :: p in aCounts.Keys - todo ==> p in bCounts && aCounts[p] == bCounts[p]
    {
      var port :| port in todo;
      if port !in bCounts || bCounts[port] != aCounts[port] {
        return false;
      }
      todo := todo - {port};
    }
    EqualSizeSubmap(aCounts, bCounts);
    return true;
  }

  lemma EqualSizeSubmap<K, V>(a: map<K, V>, b: map<K, V>)
    requires |a| == |b|
    requires forall k :: k in a ==> k in b && a[k] == b[k]
    ensures a == b
  {
    assert a.Keys <= b.Keys && |a.Keys| == |a| && |b.Keys| == |b|;
    assert |b.Keys - a.Keys| == |b.Keys| - |a.Keys|;
  }

  // ---------------------------------------------------------------- snapshots

  predicate CanvasEqual(a: Snapshot, b: Snapshot) {
    && a.status == b.status
    && PortCounts(a.outputs) == PortCounts(b.outputs)
    && PortCounts(a.inputsByPort) == PortCounts(b.inputsByPort)
  }

  function ClampStatus(prev: Status, next: Status): Status {
    if Rank(next) < Rank(prev) then prev else next
  }

  function MergedFields(prev: Snapshot, next: Snapshot): Snapshot {
    next.(
      status := ClampStatus(prev.status, next.status),
      outputs := MergeRecords(prev.outputs, next.outputs),
      inputsByPort := MergeRecords(prev.inputsByPort, next.inputsByPort))
  }

  function MergeSnapshot(prev: Option<Snapshot>, next: Snapshot): Snapshot {
    if prev.None? then next
    else if CanvasEqual(MergedFields(prev.value, next), prev.value) then prev.value
    else MergedFields(prev.value, next)
  }

  /** `next` tells the canvas nothing that `prev` did not already say. */
  predicate AddsNothing(prev: Snapshot, next: Snapshot) {
    && (next.status == prev.status || Rank(next.status) < Rank(prev.status))
    && (forall p :: p in PortCounts(next.outputs) ==>
          p in PortCounts(prev.outputs) && PortCounts(prev.outputs)[p] == PortCounts(next.outputs)[p])
    && (forall p :: p in PortCounts(next.inputsByPort) ==>
          p in PortCounts(prev.inputsByPort) && PortCounts(prev.inputsByPort)[p] == PortCounts(next.inputsByPort)[p])
  }

  lemma AbsorbedMap<K, V>(a: map<K, V>, b: map<K, V>)
    ensures a + b == a <==> forall k :: k in b ==> k in a && a[k] == b[k]
  {
    if a + b == a {
      forall k | k in b ensures k in a && a[k] == b[k] {
        assert k in a + b && (a + b)[k] == b[k];
      }
    }
  }

  /** The merge keeps `prev` exactly when `next` adds nothing; otherwise every canvas field is the join. */
  lemma MergeKeepsExactlyWhenNothingIsAdded(prev: Snapshot, next: Snapshot)
    ensures CanvasEqual(MergedFields(prev, next), prev) <==> AddsNothing(prev, next)
    ensures MergeSnapshot(Some(prev), next).nodeId == (if AddsNothing(prev, next) then prev.nodeId else next.nodeId)
    ensures CanvasEqual(MergeSnapshot(Some(prev), next), MergedFields(prev, next))
  {
    MergedPortCounts(prev.outputs, next.outputs);
    MergedPortCounts(prev.inputsByPort, next.inputsByPort);
    AbsorbedMap(PortCounts(prev.outputs), PortCounts(next.outputs));
    AbsorbedMap(PortCounts(prev.inputsByPort), PortCounts(next.inputsByPort));
  }

  lemma MergeSnapshotTwice(prev: Option<Snapshot>, next: Snapshot)
    ensures MergeSnapshot(Some(MergeSnapshot(prev, next)), next) == MergeSnapshot(prev, next)
  {
    var once := MergeSnapshot(prev, next);
    MergeKeepsExactlyWhenNothingIsAdded(once, next);
    if prev.Some? {
      MergeKeepsExactlyWhenNothingIsAdded(prev.value, next);
      MergedPortCounts(prev.value.outputs, next.outputs);
      MergedPortCounts(prev.value.inputsByPort, next.inputsByPort);
    }
    assert AddsNothing(once, next);
  }

  // ---------------------------------------------------------------- a node never goes back

  predicate Succeeded(s: Status) {
    s in {Completed, Skipped, HitlApproved, HitlAutoAccepted}
  }

  predicate Broken(s: Status) {
    s in {Failed, HitlRejected, HitlTimeout, HitlCancelled}
  }

  /** Whether `next` takes a node that shows `prev` further, or leaves it at the same stage: pending, queued, running,
      succeeded and broken follow one another. */
  predicate MovesOn(prev: Status, next: Status) {
    match prev
    case Pending => true
    case Queued => next != Pending
    case Running => next != Pending && next != Queued
    case Completed | Skipped | HitlApproved | HitlAutoAccepted => Succeeded(next) || Broken(next)
    case Failed | HitlRejected | HitlTimeout | HitlCancelled => Broken(next)
  }

  /** A node shows the new status exactly when that moves on; in particular an ended node stays ended, and a broken one
      broken, whatever arrives later. */
  lemma StatusNeverGoesBack(prev: Snapshot, next: Snapshot)
    ensures MergeSnapshot(Some(prev), next).status ==
      if MovesOn(prev.status, next.status) then next.status else prev.status
    ensures Terminal(prev.status) <==> Succeeded(prev.status) || Broken(prev.status)
    ensures Terminal(prev.status) ==> Terminal(MergeSnapshot(Some(prev), next).status)
    ensures Active(prev.status) <==> !Terminal(prev.status) && prev.status != Pending
  {
    MergeKeepsExactlyWhenNothingIsAdded(prev, next);
  }

  // ---------------------------------------------------------------- the join semilattice

  /** The part of a node's snapshot that does not depend on the order of events; `rank` is -1 before the first. */
  datatype View = View(rank: int, outputs: set<string>, inputs: set<string>)

  function ViewOf(s: Option<Snapshot>): View {
    match s
    case None => View(-1, {}, {})
    case Some(x) => View(Rank(x.status), PortCounts(x.outputs).Keys, PortCounts(x.inputsByPort).Keys)
  }

  function Join(a: View, b: View): View {
    View(if a.rank < b.rank then b.rank else a.rank, a.outputs + b.outputs, a.inputs + b.inputs)
  }

  lemma MergeIsJoin(prev: Option<Snapshot>, next: Snapshot)
    ensures ViewOf(Some(MergeSnapshot(prev, next))) == Join(ViewOf(prev), ViewOf(Some(next)))
  {
    if prev.Some? {
      MergeKeepsExactlyWhenNothingIsAdded(prev.value, next);
      MergedPortCounts(prev.value.outputs, next.outputs);
      MergedPortCounts(prev.value.inputsByPort, next.inputsByPort);
    }
  }

  // ---------------------------------------------------------------- object identity

  /** A snapshot as the views hold it: an immutable object compared by reference. */
  class SnapshotObject {
    const value: Snapshot

    constructor (value: Snapshot)
      ensures this.value == value
    {
      this.value := value;
    }
  }

  method MergeSnapshotMonotonic(prev: SnapshotObject?, next: SnapshotObject) returns (merged: SnapshotObject)
    ensures prev == null ==> merged == next
    ensures prev != null ==> merged.value == MergeSnapshot(Some(prev.value), next.value)
    ensures prev != null ==> (merged == prev <==> AddsNothing(prev.value, next.value))
    ensures merged == prev || merged == next || fresh(merged)
  {
    if prev == null { return next; }
    MergeKeepsExactlyWhenNothingIsAdded(prev.value, next.value);
    var clampedStatus := next.value.status;
    if Rank(next.value.status) < Rank(prev.value.status) {
      clampedStatus := prev.value.status;
    }
    var outputs := MergeItemRecordsMonotonic(prev.value.outputs, next.value.outputs);
    var inputs := MergeItemRecordsMonotonic(prev.value.inputsByPort, next.value.inputsByPort);
    var sameOutputs := RecordsAreCanvasEquivalent(outputs, prev.value.outputs);
    var sameInputs := RecordsAreCanvasEquivalent(inputs, prev.value.inputsByPort);
    if clampedStatus == prev.value.status && sameOutputs && sameInputs {
      return prev;
    }
    merged := new SnapshotObject(next.value.(status := clampedStatus, outputs := outputs, inputsByPort := inputs));
  }

  /** The map of node snapshots, itself an object compared by reference. */
  class NodeMapObject {
    const nodes: map<string, SnapshotObject>

    constructor (nodes: map<string, SnapshotObject>)
      ensures this.nodes == nodes
    {
      this.nodes := nodes;
    }

    function Values(): map<string, Snapshot> {
      ValuesOf(nodes)
    }
  }

  function Lookup<K, V>(m: map<K, V>, k: K): Option<V> {
    if k in m then Some(m[k]) else None
  }

  /** Node snapshots after a saved run state arrives: only its nodes survive, each merged with the cached one. */
  function MergeNodeMaps(current: map<string, Snapshot>, incoming: map<string, Snapshot>): map<string, Snapshot> {
    map n | n in incoming :: MergeSnapshot(Lookup(current, n), incoming[n])
  }

  /** Every incoming node is cached already and adds nothing, and no cached node is missing. */
  predicate NothingNew(current: map<string, Snapshot>, incoming: map<string, Snapshot>) {
    current.Keys == incoming.Keys && forall n :: n in incoming ==> AddsNothing(current[n], incoming[n])
  }

  method MergeNodeMapObjects(current: NodeMapObject, incoming: NodeMapObject) returns (stable: NodeMapObject)
    ensures stable.Values() == MergeNodeMaps(current.Values(), incoming.Values())
    ensures stable == current || fresh(stable)
    ensures stable == current <==> NothingNew(current.Values(), incoming.Values())
  {
    var merged, allPrevRefs := MergeEntries(current.nodes, incoming.nodes);
    var cached := current.nodes.Keys;
    ghost var entriesKept := allPrevRefs;
    while cached != {}
      invariant cached <= current.nodes.Keys
      invariant allPrevRefs <==> entriesKept && forall n :: n in current.nodes.Keys - cached ==> n in incoming.nodes
    {
      var node :| node in cached;
      if node !in incoming.nodes {
        allPrevRefs := false;
      }
      cached := cached - {node};
    }
    NothingNewObjects(current, incoming);
    MergedValues(current, incoming, merged);
    if allPrevRefs {
      assert merged == current.nodes;
    }
    if allPrevRefs && |merged| == |current.nodes| {
      return current;
    }
    stable := new NodeMapObject(merged);
  }

  function ValuesOf(nodes: map<string, SnapshotObject>): map<string, Snapshot> {
    map n | n in nodes :: nodes[n].value
  }

  lemma MergedValues(current: NodeMapObject, incoming: NodeMapObject, merged: map<string, SnapshotObject>)
    requires merged.Keys == incoming.nodes.Keys
    requires forall n :: n in merged ==>
      merged[n].value ==
        MergeSnapshot(if n in current.nodes then Some(current.nodes[n].value) else None, incoming.nodes[n].value)
    ensures ValuesOf(merged) == MergeNodeMaps(current.Values(), incoming.Values())
  {
    forall n | n in merged ensures ValuesOf(merged)[n] == MergeNodeMaps(current.Values(), incoming.Values())[n] {
      assert Lookup(current.Values(), n) == if n in current.nodes then Some(current.nodes[n].value) else None;
    }
  }

  lemma NothingNewObjects(current: NodeMapObject, incoming: NodeMapObject)
    ensures NothingNew(current.Values(), incoming.Values()) <==>
      && current.nodes.Keys == incoming.nodes.Keys
      && forall n :: n in incoming.nodes ==>
           n in current.nodes && AddsNothing(current.nodes[n].value, incoming.nodes[n].value)
  {
    assert current.Values().Keys == current.nodes.Keys && incoming.Values().Keys == incoming.nodes.Keys;
    if current.nodes.Keys == incoming.nodes.Keys {
      forall n | n in incoming.nodes
        ensures AddsNothing(current.Values()[n], incoming.Values()[n])
                <==> AddsNothing(current.nodes[n].value, incoming.nodes[n].value)
      {
      }
    }
  }

  method MergeEntries(current: map<string, SnapshotObject>, incoming: map<string, SnapshotObject>)
    returns (merged: map<string, SnapshotObject>, allPrevRefs: bool)
    ensures merged.Keys == incoming.Keys
    ensures forall n :: n in merged ==>
      merged[n].value == MergeSnapshot(if n in current then Some(current[n].value) else None, incoming[n].value)
    ensures allPrevRefs <==>
      forall n :: n in incoming ==> n in current && AddsNothing(current[n].value, incoming[n].value)
    ensures allPrevRefs ==> forall n :: n in merged ==> merged[n] == current[n]
  {
    merged, allPrevRefs := map[], true;
    var todo := incoming.Keys;
    while todo != {}
      invariant todo <= incoming.Keys
      invariant merged.Keys == incoming.Keys - todo
      invariant forall n :: n in merged ==>
        merged[n].value == MergeSnapshot(if n in current then Some(current[n].value) else None, incoming[n].value)
      invariant allPrevRefs <==>
        forall n :: n in merged ==> n in current && AddsNothing(current[n].value, incoming[n].value)
      invariant allPrevRefs ==> forall n :: n in merged ==> merged[n] == current[n]
    {
      var node :| node in todo;
      var prev: SnapshotObject? := null;
      if node in current {
        prev := current[node];
      }
      var snapshot := MergeSnapshotMonotonic(prev, incoming[node]);
      if prev == null || snapshot != prev {
        allPrevRefs := false;
      }
      merged := merged[node := snapshot];
      todo := todo - {node};
    }
  }
}

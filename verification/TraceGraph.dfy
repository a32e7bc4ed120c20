/** The graph of a whole trace: run nodes, the nodes inside each run, and task nodes. */
module TraceGraph {
  import opened Partition
  import opened Wrappers
  import Regions

  /** A node of the full trace graph. */
  datatype Node = RunNode(run: string) | Inner(run: string, owner: Owner) | TaskNode(task: string)

  /** A region of it: the lane of a run, or the region of a task whose child has no lane. */
  datatype Region = Lane(run: string) | TaskRegion(task: string)

  type Members = Regions.Members<Region, Node>
  type Placed = Regions.Node<Node, Region>

  /** The event belongs to the graph of its run. */
  predicate InRun(e: Event) {
    !e.kind.Subagent? && e.run != ""
  }

  /** A lifecycle event with an id by which some pass over its run takes it as well. */
  predicate LifecycleTaken(e: Event) {
    e.kind in {RunStarted, RunFinished}
    && (e.attempt != "" || e.checkpoint != "" || e.goal != "" || e.delivery != "")
  }

  /** No other id and nothing else about a lifecycle event makes a pass take it. */
  lemma LifecycleHasOwner(e: Event)
    requires IsLifecycle(e.kind)
    ensures OwnerOf(true, e).Some? <==> LifecycleTaken(e)
  {
  }

  /** The same for all events of a run. */
  lemma LifecyclesHaveOwners(events: seq<Event>)
    ensures forall e :: e in events && IsLifecycle(e.kind) ==> (OwnerOf(true, e).Some? <==> LifecycleTaken(e))
  {
    forall e | e in events && IsLifecycle(e.kind) ensures OwnerOf(true, e).Some? <==> LifecycleTaken(e) {
      LifecycleHasOwner(e);
    }
  }

  function NodeOfRunEvent(e: Event): Option<Node> {
    if IsLifecycle(e.kind) then Some(RunNode(e.run))
    else match OwnerOf(true, e)
      case None => None
      case Some(o) => Some(Inner(e.run, o))
  }

  /** An earlier subagent event carries the same idempotency key. */
  predicate IsDuplicate(events: seq<Event>, e: Event) {
    e.idempotency.Some? && exists i, j :: 0 <= i < j < |events| && events[j] == e
                                          && events[i].kind.Subagent? && events[i].idempotency == e.idempotency
  }

  /** Where an event of the trace belongs. */
  ghost function NodeOf(events: seq<Event>, e: Event): Option<Node> {
    if InRun(e) then NodeOfRunEvent(e)
    else if e.kind.Subagent? && e.task != "" && !IsDuplicate(events, e) then Some(TaskNode(e.task))
    else None
  }

  function Pick(p: Event -> bool, events: seq<Event>): (picked: seq<Event>)
    ensures forall e :: e in picked <==> e in events && p(e)
  {
    if events == [] then []
    else
      var rest, last := Pick(p, events[..|events| - 1]), events[|events| - 1];
      assert events == events[..|events| - 1] + [last];
      if p(last) then rest + [last] else rest
  }

  lemma PickStep(p: Event -> bool, events: seq<Event>, n: nat)
    requires n < |events|
    ensures Pick(p, events[..n + 1]) == Pick(p, events[..n]) + if p(events[n]) then [events[n]] else []
  {
    assert events[..n + 1][..n] == events[..n];
  }

  lemma {:induction false} PickKeepsOrder(p: Event -> bool, events: seq<Event>)
    ensures InEventOrder(events, Pick(p, events))
  {
    if events == [] {
      assert Keeps(events, [], []);
    } else {
      var front, last := events[..|events| - 1], events[|events| - 1];
      PickKeepsOrder(p, front);
      var at :| Keeps(front, at, Pick(p, front));
      KeepsStep(front, at, Pick(p, front), last, p(last));
      assert events == front + [last];
    }
  }

  lemma {:induction false} PickIsUnique(p: Event -> bool, events: seq<Event>)
    requires Unique(events)
    ensures Unique(Pick(p, events))
  {
    if events != [] {
      var n := |events| - 1;
      PickIsUnique(p, events[..n]);
      forall e | e in events[..n] ensures e.id != events[n].id {
        var i :| 0 <= i < n && events[i] == e;
      }
    }
  }

  type Owners = map<string, Node>

  /** `grown` is `owners` with `node` for the events. */
  ghost predicate Grew(owners: Owners, grown: Owners, members: seq<Event>, node: Node) {
    && (forall id :: id in grown <==> id in owners || exists e :: e in members && e.id == id)
    && (forall id :: id in owners ==> grown[id] == owners[id])
    && forall e :: e in members ==> e.id in grown && grown[e.id] == node
  }

  /** `add`: it raises exactly when an event has an owner already. */
  method Add(owners: Owners, members: seq<Event>, node: Node) returns (grown: Option<Owners>)
    requires Unique(members)
    ensures grown.None? <==> exists e :: e in members && e.id in owners
    ensures grown.Some? ==> Grew(owners, grown.value, members, node)
  {
    var owned := owners;
    for k := 0 to |members|
      invariant forall id :: id in owned <==> id in owners || exists e :: e in members[..k] && e.id == id
      invariant forall id :: id in owners ==> owned[id] == owners[id]
      invariant forall e :: e in members[..k] ==> e.id in owned && owned[e.id] == node && e.id !in owners
    {
      var e := members[k];
      assert members[..k + 1] == members[..k] + [e];
      if e.id in owned {
        assert forall f :: f in members[..k] ==> f.id != e.id by {
          forall f | f in members[..k] ensures f.id != e.id {
            var i :| 0 <= i < k && members[i] == f;
          }
        }
        return None;
      }
      owned := owned[e.id := node];
    }
    assert members[..|members|] == members;
    return Some(owned);
  }

  // ---- regions ----

  predicate HasLane(events: seq<Event>, run: string) {
    run != "" && exists e :: e in events && BelongsTo(e, run)
  }

  /** The first event that names a parent; the number of events if none does. */
  function FirstParent(grouped: seq<Event>): (k: nat)
    ensures k <= |grouped| && forall j :: 0 <= j < k ==> grouped[j].parent == ""
    ensures k < |grouped| ==> grouped[k].parent != ""
  {
    if grouped == [] then 0
    else
      var n := |grouped| - 1;
      var k := FirstParent(grouped[..n]);
      if k == n && grouped[n].parent == "" then n + 1 else k
  }

  /** The place behind the last event of a run that is not the owner; zero if there is none. */
  function LastOther(grouped: seq<Event>, owner: string): (k: nat)
    ensures k <= |grouped| && forall j :: k <= j < |grouped| ==> grouped[j].run == "" || grouped[j].run == owner
    ensures k > 0 ==> grouped[k - 1].run != "" && grouped[k - 1].run != owner
  {
    if grouped == [] then 0
    else
      var n := |grouped| - 1;
      if grouped[n].run != "" && grouped[n].run != owner then n + 1 else LastOther(grouped[..n], owner)
  }

  /** The run that owns a task. */
  function OwnerRun(grouped: seq<Event>): string {
    var k := FirstParent(grouped);
    if k < |grouped| then grouped[k].parent else ""
  }

  /** The run a task started. */
  function ChildRun(grouped: seq<Event>): string {
    var k := LastOther(grouped, OwnerRun(grouped));
    if k > 0 then grouped[k - 1].run else ""
  }

  /** The region a task's node lies in: the lane of the run it started, if there is one. */
  function TaskHome(events: seq<Event>, task: string): Region {
    var child := ChildRun(EventsOfTask(TaskEvents(events), task));
    if HasLane(events, child) then Lane(child) else TaskRegion(task)
  }

  /** The region each node lies in. */
  function HomeOf(events: seq<Event>, node: Node): Region {
    match node
    case RunNode(run) => Lane(run)
    case Inner(run, _) => Lane(run)
    case TaskNode(task) => TaskHome(events, task)
  }

  /** The graph has the node: each run has one, and so has every owner of an event. */
  ghost predicate IsTraceNode(events: seq<Event>, node: Node) {
    (node.RunNode? && HasLane(events, node.run)) || exists e :: e in events && NodeOf(events, e) == Some(node)
  }

  // ---- one run ----

  predicate BelongsTo(e: Event, run: string) {
    InRun(e) && e.run == run
  }

  function EventsOf(events: seq<Event>, run: string): (grouped: seq<Event>)
    ensures forall e :: e in grouped <==> e in events && BelongsTo(e, run)
  {
    Pick(e => BelongsTo(e, run), events)
  }

  function LifecycleOf(events: seq<Event>, run: string): (lifecycle: seq<Event>)
    ensures forall e :: e in lifecycle <==> e in events && BelongsTo(e, run) && IsLifecycle(e.kind)
  {
    Pick(e => BelongsTo(e, run) && IsLifecycle(e.kind), events)
  }

  lemma EventsOfAreUnique(events: seq<Event>, run: string)
    requires Unique(events)
    ensures Unique(EventsOf(events, run)) && Unique(LifecycleOf(events, run))
  {
    PickIsUnique(e => BelongsTo(e, run), events);
    PickIsUnique(e => BelongsTo(e, run) && IsLifecycle(e.kind), events);
  }

  /** `add` for the nodes inside a run. */
  method AddInner(owners: Owners, grouped: seq<Event>, run: string, g: RunGraph) returns (grown: Option<Owners>)
    requires Unique(grouped) && IsPartition(true, grouped, g)
    ensures grown.None? <==> exists e :: e in grouped && e.id in g.owners && e.id in owners
    ensures grown.Some? ==>
              && (forall id :: id in grown.value <==> id in owners || id in g.owners)
              && (forall id :: id in owners ==> grown.value[id] == owners[id])
              && forall e :: e in grouped && e.id in g.owners ==>
                   grown.value[e.id] == Inner(run, OwnerOf(true, e).value)
  {
    var owned := owners;
    for i := 0 to |g.groups|
      invariant forall id :: id in owned <==> id in owners || (id in g.owners && g.owners[id] < i)
      invariant forall id :: id in owners ==> owned[id] == owners[id]
      invariant forall e :: e in grouped && e.id in g.owners && g.owners[e.id] < i ==>
                              owned[e.id] == Inner(run, OwnerOf(true, e).value) && e.id !in owners
    {
      var next := Add(owned, g.groups[i].members, Inner(run, g.groups[i].owner));
      if next.None? {
        var e :| e in g.groups[i].members && e.id in owned;
        assert e in grouped && g.owners[e.id] == i;
        return None;
      }
      GroupOwns(grouped, g, i);
      owned := next.value;
    }
    return Some(owned);
  }

  /** The events whose owner is node `i` are the members of node `i`. */
  lemma GroupOwns(grouped: seq<Event>, g: RunGraph, i: nat)
    requires IsPartition(true, grouped, g) && i < |g.groups|
    ensures forall id :: id in g.owners && g.owners[id] == i <==> exists e :: e in g.groups[i].members && e.id == id
    ensures forall e :: e in g.groups[i].members ==>
              g.groups[i].owner == OwnerOf(true, e).value && OwnerOf(true, e).Some?
  {
    forall id | id in g.owners && g.owners[id] == i ensures exists e :: e in g.groups[i].members && e.id == id {
      var e :| e in grouped && e.id == id;
    }
  }

  /** `grown` is `owners` with every event of the run that has a node. */
  ghost predicate JoinsRun(events: seq<Event>, run: string, owners: Owners, grown: Owners) {
    && (forall id :: id in owners ==> id in grown && grown[id] == owners[id])
    && (forall e :: e in events && BelongsTo(e, run) && NodeOfRunEvent(e).Some? ==>
          e.id in grown && grown[e.id] == NodeOfRunEvent(e).value)
    && forall id :: id in grown ==> id in owners || OwnedInRun(events, run, id)
  }

  ghost predicate OwnedInRun(events: seq<Event>, run: string, id: string) {
    exists e :: e in events && BelongsTo(e, run) && e.id == id && NodeOfRunEvent(e).Some?
  }

  /** The nodes of one run. */
  ghost predicate IsNodeOfRun(events: seq<Event>, run: string, node: Node) {
    node == RunNode(run) || exists e :: e in events && BelongsTo(e, run) && NodeOfRunEvent(e) == Some(node)
  }

  /** The run's own node and the nodes inside it; all are members of its lane. */
  method AddRun(events: seq<Event>, run: string, owners: Owners) returns (grown: Option<Owners>, ids: seq<Node>)
    requires Unique(events)
    requires forall e :: e in events && BelongsTo(e, run) ==> e.id !in owners
    ensures grown.None? <==> exists e :: e in events && BelongsTo(e, run) && (ClaimedTwice(e) || LifecycleTaken(e))
    ensures grown.Some? ==> JoinsRun(events, run, owners, grown.value)
    ensures grown.Some? ==> forall node :: node in ids <==> IsNodeOfRun(events, run, node)
  {
    ids := [];
    var grouped, lifecycle := EventsOf(events, run), LifecycleOf(events, run);
    EventsOfAreUnique(events, run);
    LifecyclesHaveOwners(grouped);
    var graph := RunNodes(true, grouped);
    if graph.None? {
      return None, [];
    }
    var added := Add(owners, lifecycle, RunNode(run));
    LifecycleIsAdded(events, run, owners, added.value);
    grown := AddInner(added.value, grouped, run, graph.value);
    if grown.Some? {
      RunJoined(events, run, owners, added.value, graph.value, grown.value);
      ids := [RunNode(run)] + seq(|graph.value.groups|,
        i requires 0 <= i < |graph.value.groups| => Inner(run, graph.value.groups[i].owner));
      NodesOfRun(events, run, graph.value, ids);
    }
  }

  lemma NodesOfRun(events: seq<Event>, run: string, g: RunGraph, ids: seq<Node>)
    requires IsPartition(true, EventsOf(events, run), g)
    requires forall e :: e in events && BelongsTo(e, run) ==> !LifecycleTaken(e)
    requires |ids| == |g.groups| + 1 && ids[0] == RunNode(run)
    requires forall i :: 0 <= i < |g.groups| ==> ids[i + 1] == Inner(run, g.groups[i].owner)
    ensures forall node :: node in ids <==> IsNodeOfRun(events, run, node)
  {
    forall i | 0 <= i < |g.groups| ensures IsNodeOfRun(events, run, Inner(run, g.groups[i].owner)) {
      GroupHasEvent(events, run, g, i);
    }
    forall node | node != RunNode(run) && IsNodeOfRun(events, run, node) ensures IsInner(run, g.groups, node) {
      var i := NodeHasGroup(events, run, g, node);
    }
    ListsNodes(events, run, g.groups, ids);
  }

  ghost predicate IsInner(run: string, groups: seq<Group>, node: Node) {
    exists i :: 0 <= i < |groups| && node == Inner(run, groups[i].owner)
  }

  lemma ListsNodes(events: seq<Event>, run: string, groups: seq<Group>, ids: seq<Node>)
    requires |ids| == |groups| + 1 && ids[0] == RunNode(run)
    requires forall i :: 0 <= i < |groups| ==> ids[i + 1] == Inner(run, groups[i].owner)
    requires forall i :: 0 <= i < |groups| ==> IsNodeOfRun(events, run, Inner(run, groups[i].owner))
    requires forall node :: node != RunNode(run) && IsNodeOfRun(events, run, node) ==> IsInner(run, groups, node)
    ensures forall node :: node in ids <==> IsNodeOfRun(events, run, node)
  {
    forall node | node in ids ensures IsNodeOfRun(events, run, node) {
      var k :| 0 <= k < |ids| && ids[k] == node;
      assert k > 0 ==> ids[k - 1 + 1] == Inner(run, groups[k - 1].owner);
    }
    forall node | IsNodeOfRun(events, run, node) ensures node in ids {
      if node != RunNode(run) {
        var i :| 0 <= i < |groups| && node == Inner(run, groups[i].owner);
        assert ids[i + 1] == node;
      }
    }
  }

  lemma NodeHasGroup(events: seq<Event>, run: string, g: RunGraph, node: Node) returns (i: nat)
    requires IsPartition(true, EventsOf(events, run), g)
    requires node != RunNode(run) && IsNodeOfRun(events, run, node)
    ensures i < |g.groups| && node == Inner(run, g.groups[i].owner)
  {
    var e :| e in events && BelongsTo(e, run) && NodeOfRunEvent(e) == Some(node);
    assert e in EventsOf(events, run) && OwnerOf(true, e).Some?;
    i := g.owners[e.id];
  }

  lemma GroupHasEvent(events: seq<Event>, run: string, g: RunGraph, i: nat)
    requires IsPartition(true, EventsOf(events, run), g) && i < |g.groups|
    requires forall e :: e in events && BelongsTo(e, run) ==> !LifecycleTaken(e)
    ensures exists e :: e in events && BelongsTo(e, run) && NodeOfRunEvent(e) == Some(Inner(run, g.groups[i].owner))
  {
    assert g.groups[i].members != [];
    var e := g.groups[i].members[0];
    assert e in g.groups[i].members && e in EventsOf(events, run) && g.owners[e.id] == i;
    assert OwnerOf(true, e) == Some(g.groups[i].owner);
    if IsLifecycle(e.kind) {
      LifecycleHasOwner(e);
    }
    assert NodeOfRunEvent(e) == Some(Inner(run, g.groups[i].owner));
  }

  lemma LifecycleIsAdded(events: seq<Event>, run: string, owners: Owners, added: Owners)
    requires Unique(events) && Grew(owners, added, LifecycleOf(events, run), RunNode(run))
    requires forall e :: e in events && BelongsTo(e, run) ==> e.id !in owners
    ensures forall e :: e in EventsOf(events, run) ==> (e.id in added <==> IsLifecycle(e.kind))
  {
    forall e | e in EventsOf(events, run) ensures e.id in added <==> IsLifecycle(e.kind) {
      if e.id in added {
        var f :| f in LifecycleOf(events, run) && f.id == e.id;
        SameIdSameEvent(events, e, f);
      }
    }
  }

  lemma RunJoined(events: seq<Event>, run: string, owners: Owners, added: Owners, g: RunGraph, grown: Owners)
    requires Grew(owners, added, LifecycleOf(events, run), RunNode(run)) && IsPartition(true, EventsOf(events, run), g)
    requires forall id :: id in grown <==> id in added || id in g.owners
    requires forall id :: id in added ==> grown[id] == added[id]
    requires forall e :: e in EventsOf(events, run) && e.id in g.owners ==>
               grown[e.id] == Inner(run, OwnerOf(true, e).value)
    ensures JoinsRun(events, run, owners, grown)
  {
    forall e | e in events && BelongsTo(e, run) && NodeOfRunEvent(e).Some?
      ensures e.id in grown && grown[e.id] == NodeOfRunEvent(e).value
    {
      if IsLifecycle(e.kind) {
        assert e in LifecycleOf(events, run);
      } else {
        assert e in EventsOf(events, run);
      }
    }
    forall id | id in grown && id !in owners ensures OwnedInRun(events, run, id) {
      if id in added {
        var e :| e in LifecycleOf(events, run) && e.id == id;
      } else {
        var e :| e in EventsOf(events, run) && e.id == id;
        assert OwnerOf(true, e).Some?;
      }
    }
  }

  // ---- all runs ----

  /** The owners after the runs in `done`. */
  ghost predicate RunsOwned(events: seq<Event>, done: seq<string>, owners: Owners) {
    && (forall e :: e in events && InRun(e) && e.run in done && NodeOfRunEvent(e).Some? ==>
          e.id in owners && owners[e.id] == NodeOfRunEvent(e).value)
    && forall id :: id in owners ==>
         exists e :: e in events && InRun(e) && e.run in done && e.id == id && NodeOfRunEvent(e).Some?
  }

  ghost predicate RunRaises(events: seq<Event>, run: string) {
    exists e :: e in events && BelongsTo(e, run) && (ClaimedTwice(e) || LifecycleTaken(e))
  }

  lemma NextRunIsNew(events: seq<Event>, done: seq<string>, owners: Owners, run: string, e: Event)
    requires Unique(events) && RunsOwned(events, done, owners) && run !in done
    requires e in events && BelongsTo(e, run)
    ensures e.id !in owners
  {
    forall f | f in events && f.id == e.id ensures f == e {
      SameIdSameEvent(events, e, f);
    }
  }

  lemma RunKeepsOwned(events: seq<Event>, done: seq<string>, owners: Owners, run: string, grown: Owners)
    requires RunsOwned(events, done, owners) && JoinsRun(events, run, owners, grown)
    ensures RunsOwned(events, done + [run], grown)
  {
    forall id | id in grown
      ensures exists e :: e in events && InRun(e) && e.run in done + [run] && e.id == id && NodeOfRunEvent(e).Some?
    {
      if id in owners {
        var e :| e in events && InRun(e) && e.run in done && e.id == id && NodeOfRunEvent(e).Some?;
      } else {
        assert OwnedInRun(events, run, id);
        var e :| e in events && BelongsTo(e, run) && e.id == id && NodeOfRunEvent(e).Some?;
      }
    }
  }

  /** The different values of a key among the events that have one. */
  method DistinctKeys(key: Event -> string, events: seq<Event>) returns (keys: seq<string>)
    ensures forall k :: k in keys <==> k != "" && exists e :: e in events && key(e) == k
    ensures forall i, j :: 0 <= i < j < |keys| ==> keys[i] != keys[j]
  {
    keys := [];
    for n := 0 to |events|
      invariant forall k :: k in keys <==> k != "" && exists e :: e in events[..n] && key(e) == k
      invariant forall i, j :: 0 <= i < j < |keys| ==> keys[i] != keys[j]
    {
      assert events[..n + 1] == events[..n] + [events[n]];
      if key(events[n]) != "" && key(events[n]) !in keys {
        keys := keys + [key(events[n])];
      }
    }
    assert events[..|events|] == events;
  }

  function RunKey(e: Event): string {
    if InRun(e) then e.run else ""
  }

  /** The lanes of the runs in `done`, and the nodes in them. */
  ghost predicate LanesPlaced(events: seq<Event>, done: seq<string>, members: Members, nodes: seq<Placed>) {
    && Regions.IsPlaced(members, nodes)
    && (forall n :: n in nodes <==> n.region.Lane? && n.region.run in done && IsNodeOfRun(events, n.region.run, n.id))
    && forall r :: r in members <==> r.Lane? && r.run in done
  }

  /** The nodes with these ids in one region. */
  function InRegion(ids: seq<Node>, region: Region): (nodes: seq<Placed>)
    ensures |nodes| == |ids| && forall i :: 0 <= i < |ids| ==> nodes[i] == Regions.Node(ids[i], region)
    ensures forall n :: n in nodes <==> n.region == region && n.id in ids
  {
    var nodes := seq(|ids|, i requires 0 <= i < |ids| => Regions.Node(ids[i], region));
    assert forall n: Placed :: n.region == region && n.id in ids ==>
        exists i :: 0 <= i < |ids| && ids[i] == n.id && nodes[i] == n;
    nodes
  }

  lemma LaneOpens(events: seq<Event>, done: seq<string>, members: Members, nodes: seq<Placed>, run: string,
    ids: seq<Node>)
    requires LanesPlaced(events, done, members, nodes) && run !in done
    requires forall node :: node in ids <==> IsNodeOfRun(events, run, node)
    ensures LanesPlaced(events, done + [run], members[Lane(run) := ids], nodes + InRegion(ids, Lane(run)))
  {
    Regions.PlacingKeeps(members, nodes, Lane(run), InRegion(ids, Lane(run)), ids);
    assert Regions.MembersOf(members, Lane(run)) + ids == ids;
  }

  /** The run nodes and the nodes inside the runs, each run in a lane of its own. */
  method AddRuns(events: seq<Event>)
    returns (owners: Option<Owners>, runs: seq<string>, members: Members, nodes: seq<Placed>)
    requires Unique(events)
    ensures owners.None? <==> exists e :: e in events && InRun(e) && (ClaimedTwice(e) || LifecycleTaken(e))
    ensures owners.Some? ==>
              && (forall e :: e in events && InRun(e) && NodeOfRunEvent(e).Some? ==>
                    e.id in owners.value && owners.value[e.id] == NodeOfRunEvent(e).value)
              && forall id :: id in owners.value ==>
                   exists e :: e in events && InRun(e) && e.id == id && NodeOfRunEvent(e).Some?
    ensures forall run :: run in runs <==> HasLane(events, run)
    ensures owners.Some? ==> LanesPlaced(events, runs, members, nodes)
  {
    runs := DistinctKeys(RunKey, events);
    forall run ensures run in runs <==> HasLane(events, run) {
      RunsHaveLanes(events, run);
    }
    var owned: Owners := map[];
    members, nodes := map[], [];
    for k := 0 to |runs|
      invariant RunsOwned(events, runs[..k], owned)
      invariant forall i :: 0 <= i < k ==> !RunRaises(events, runs[i])
      invariant LanesPlaced(events, runs[..k], members, nodes)
    {
      assert runs[k] !in runs[..k];
      forall e | e in events && BelongsTo(e, runs[k]) ensures e.id !in owned {
        NextRunIsNew(events, runs[..k], owned, runs[k], e);
      }
      var grown, ids := AddRun(events, runs[k], owned);
      if grown.None? {
        return None, runs, map[], [];
      }
      RunKeepsOwned(events, runs[..k], owned, runs[k], grown.value);
      LaneOpens(events, runs[..k], members, nodes, runs[k], ids);
      assert runs[..k + 1] == runs[..k] + [runs[k]];
      owned := grown.value;
      members, nodes := members[Lane(runs[k]) := ids], nodes + InRegion(ids, Lane(runs[k]));
    }
    assert runs[..|runs|] == runs;
    forall e | e in events && InRun(e) ensures e.run in runs && !ClaimedTwice(e) && !LifecycleTaken(e) {
      assert BelongsTo(e, e.run);
      var i :| 0 <= i < |runs| && runs[i] == e.run;
      assert !RunRaises(events, runs[i]) && BelongsTo(e, runs[i]);
    }
    owners := Some(owned);
  }

  lemma RunsHaveLanes(events: seq<Event>, run: string)
    ensures HasLane(events, run) <==> run != "" && exists e :: e in events && RunKey(e) == run
  {
    if HasLane(events, run) {
      var e :| e in events && BelongsTo(e, run);
      assert RunKey(e) == run;
    } else if run != "" {
      forall e | e in events ensures RunKey(e) != run {
        assert !BelongsTo(e, run);
      }
    }
  }

  // ---- tasks ----

  /** A subagent event that is not a repetition. */
  predicate IsTaskEvent(events: seq<Event>, e: Event) {
    e in events && e.kind.Subagent? && !IsDuplicate(events, e)
  }

  function TaskEvents(events: seq<Event>): (tasks: seq<Event>)
    ensures forall e :: e in tasks <==> IsTaskEvent(events, e)
  {
    Pick((e: Event) => IsTaskEvent(events, e), events)
  }

  function EventsOfTask(tasks: seq<Event>, task: string): (grouped: seq<Event>)
    ensures forall e :: e in grouped <==> e in tasks && e.task == task
  {
    Pick((e: Event) => e.task == task, tasks)
  }

  /** The parent named by the first event that names one, or nothing. */
  ghost predicate IsOwnerRun(grouped: seq<Event>, owner: string) {
    if forall k :: 0 <= k < |grouped| ==> grouped[k].parent == "" then owner == ""
    else
      exists k :: 0 <= k < |grouped| && grouped[k].parent == owner && owner != ""
                  && forall j :: 0 <= j < k ==> grouped[j].parent == ""
  }

  /** The last run named that is not the owner, or nothing. */
  ghost predicate IsChildRun(grouped: seq<Event>, owner: string, child: string) {
    if forall k :: 0 <= k < |grouped| ==> grouped[k].run in {"", owner} then child == ""
    else
      exists k :: 0 <= k < |grouped| && grouped[k].run == child && child !in {"", owner}
                  && forall j :: k < j < |grouped| ==> grouped[j].run in {"", owner}
  }

  lemma OwnerRunMeaning(grouped: seq<Event>)
    ensures IsOwnerRun(grouped, OwnerRun(grouped))
  {
    var k := FirstParent(grouped);
    assert k < |grouped| ==> grouped[k].parent == OwnerRun(grouped);
  }

  lemma ChildRunMeaning(grouped: seq<Event>)
    ensures IsChildRun(grouped, OwnerRun(grouped), ChildRun(grouped))
  {
    var k := LastOther(grouped, OwnerRun(grouped));
    assert k > 0 ==> grouped[k - 1].run == ChildRun(grouped);
  }

  lemma EventsOfTaskMeaning(events: seq<Event>, task: string)
    ensures var grouped := EventsOfTask(TaskEvents(events), task);
            && InEventOrder(TaskEvents(events), grouped) && InEventOrder(events, TaskEvents(events))
            && forall e :: e in grouped <==>
                 e in events && e.kind.Subagent? && e.task == task && !IsRepetition(events, e)
  {
    PickKeepsOrder((e: Event) => IsTaskEvent(events, e), events);
    PickKeepsOrder((e: Event) => e.task == task, TaskEvents(events));
    forall e ensures IsDuplicate(events, e) <==> IsRepetition(events, e) {
    }
  }

  /**
   * A task's node lies in the lane of its child if the child has events of its own: among the task's
   * events, without repetitions and in order, the child is the last run named beside the owner.
   */
  lemma TaskHomeMeaning(events: seq<Event>, task: string) returns (grouped: seq<Event>, owner: string, child: string)
    ensures InEventOrder(TaskEvents(events), grouped) && InEventOrder(events, TaskEvents(events))
    ensures forall e :: e in grouped <==> e in events && e.kind.Subagent? && e.task == task && !IsRepetition(events, e)
    ensures IsOwnerRun(grouped, owner) && IsChildRun(grouped, owner, child)
    ensures TaskHome(events, task)
            == if child != "" && (exists e :: e in events && !e.kind.Subagent? && e.run == child) then Lane(child)
               else TaskRegion(task)
  {
    grouped := EventsOfTask(TaskEvents(events), task);
    owner, child := OwnerRun(grouped), ChildRun(grouped);
    EventsOfTaskMeaning(events, task);
    OwnerRunMeaning(grouped);
    ChildRunMeaning(grouped);
    HasLaneMeaning(events, child);
  }

  lemma HasLaneMeaning(events: seq<Event>, run: string)
    ensures HasLane(events, run) <==> run != "" && exists e :: e in events && !e.kind.Subagent? && e.run == run
  {
    if run != "" && exists e :: e in events && !e.kind.Subagent? && e.run == run {
      var e :| e in events && !e.kind.Subagent? && e.run == run;
      assert BelongsTo(e, run);
    }
  }

  /** A subagent event that is a repetition. */
  predicate IsRepeated(events: seq<Event>, e: Event) {
    e.kind.Subagent? && IsDuplicate(events, e)
  }

  function IdsOf(events: seq<Event>): (ids: seq<string>)
    ensures |ids| == |events|
    ensures forall id :: id in ids <==> exists e :: e in events && e.id == id
  {
    var ids := seq(|events|, i requires 0 <= i < |events| => events[i].id);
    assert forall i :: 0 <= i < |events| ==> ids[i] == events[i].id;
    ids
  }

  /** A subagent event joins one of the two lists, by whether its key was seen. */
  lemma OneMoreSorted(events: seq<Event>, n: nat, keys: set<string>)
    requires Unique(events) && n < |events| && KeysSeen(events, n, keys)
    ensures var e, seen := events[n], events[n].idempotency.Some? && events[n].idempotency.value in keys;
            && Pick((f: Event) => IsTaskEvent(events, f), events[..n + 1])
               == Pick((f: Event) => IsTaskEvent(events, f), events[..n])
                 + (if e.kind.Subagent? && !seen then [e] else [])
            && IdsOf(Pick((f: Event) => IsRepeated(events, f), events[..n + 1]))
               == IdsOf(Pick((f: Event) => IsRepeated(events, f), events[..n]))
                  + if e.kind.Subagent? && seen then [e.id] else []
  {
    KeySeen(events, n, keys);
    PickStep((f: Event) => IsTaskEvent(events, f), events, n);
    PickStep((f: Event) => IsRepeated(events, f), events, n);
  }

  /** The subagent events without those whose idempotency key was seen before, and those. */
  method DropDuplicates(events: seq<Event>) returns (kept: seq<Event>, dropped: seq<string>)
    requires Unique(events)
    ensures kept == TaskEvents(events)
    ensures Unique(kept)
    ensures forall id :: id in dropped <==> exists e :: e in events && IsRepeated(events, e) && e.id == id
  {
    kept, dropped := [], [];
    var keys: set<string> := {};
    for n := 0 to |events|
      invariant kept == Pick((e: Event) => IsTaskEvent(events, e), events[..n])
      invariant dropped == IdsOf(Pick((e: Event) => IsRepeated(events, e), events[..n]))
      invariant KeysSeen(events, n, keys)
    {
      var e := events[n];
      KeySeen(events, n, keys);
      OneMoreSorted(events, n, keys);
      if e.kind.Subagent? {
        if e.idempotency.Some? && e.idempotency.value in keys {
          dropped := dropped + [e.id];
        } else {
          if e.idempotency.Some? {
            keys := keys + {e.idempotency.value};
          }
          kept := kept + [e];
        }
      }
    }
    assert events[..|events|] == events;
    PickIsUnique((e: Event) => IsTaskEvent(events, e), events);
  }

  ghost predicate KeysSeen(events: seq<Event>, n: nat, keys: set<string>)
    requires n <= |events|
  {
    forall k :: k in keys <==> exists i :: 0 <= i < n && events[i].kind.Subagent? && events[i].idempotency == Some(k)
  }

  lemma KeySeen(events: seq<Event>, n: nat, keys: set<string>)
    requires Unique(events) && n < |events| && KeysSeen(events, n, keys)
    ensures IsDuplicate(events, events[n]) <==> events[n].idempotency.Some? && events[n].idempotency.value in keys
    ensures var key := events[n].idempotency;
            KeysSeen(events, n + 1, if events[n].kind.Subagent? && key.Some? then keys + {key.value} else keys)
  {
    var e := events[n];
    if IsDuplicate(events, e) {
      var i, j :| 0 <= i < j < |events| && events[j] == e && events[i].kind.Subagent?
        && events[i].idempotency == e.idempotency;
      assert j == n;
    }
  }

  /** The nodes of the tasks in `done` beside the others, each in its child's lane or in a region of its own. */
  ghost predicate TasksPlaced(events: seq<Event>, done: seq<string>, others: seq<Placed>, members: Members,
    nodes: seq<Placed>)
  {
    && Regions.IsPlaced(members, nodes)
    && (forall n :: n in nodes <==> n in others || IsPlacedTask(events, done, n))
    && (forall run :: Lane(run) in members <==> HasLane(events, run))
    && forall task :: TaskRegion(task) in members ==> task in done
  }

  ghost predicate IsPlacedTask(events: seq<Event>, done: seq<string>, n: Placed) {
    n.id.TaskNode? && n.id.task in done && n.region == TaskHome(events, n.id.task)
  }

  lemma TaskJoins(events: seq<Event>, done: seq<string>, others: seq<Placed>, members: Members, nodes: seq<Placed>,
    task: string)
    requires TasksPlaced(events, done, others, members, nodes)
    ensures var home := TaskHome(events, task);
            TasksPlaced(events, done + [task], others,
              members[home := Regions.MembersOf(members, home) + [TaskNode(task)]],
                        nodes + [Regions.Node(TaskNode(task), home)])
  {
    var home := TaskHome(events, task);
    Regions.PlacingKeeps(members, nodes, home, [Regions.Node(TaskNode(task), home)], [TaskNode(task)]);
  }

  /** Beside `owners`, exactly the events of the tasks in `done` are owned, by their task's node. */
  ghost predicate TasksOwned(tasks: seq<Event>, done: seq<string>, owners: Owners, grown: Owners) {
    && (forall id :: id in grown <==> id in owners || exists e :: e in tasks && e.task in done && e.id == id)
    && (forall id :: id in owners ==> grown[id] == owners[id])
    && forall e :: e in tasks && e.task in done ==> grown[e.id] == TaskNode(e.task)
  }

  lemma TaskIsFree(tasks: seq<Event>, done: seq<string>, owners: Owners, grown: Owners, task: string)
    requires Unique(tasks) && TasksOwned(tasks, done, owners, grown) && task !in done
    requires forall e :: e in tasks ==> e.id !in owners
    ensures forall e :: e in EventsOfTask(tasks, task) ==> e.id !in grown
  {
    forall e | e in EventsOfTask(tasks, task) ensures e.id !in grown {
      forall f | f in tasks && f.id == e.id ensures f == e {
        SameIdSameEvent(tasks, e, f);
      }
    }
  }

  lemma TaskJoinsOwned(tasks: seq<Event>, done: seq<string>, owners: Owners, grown: Owners, task: string, next: Owners)
    requires TasksOwned(tasks, done, owners, grown) && Grew(grown, next, EventsOfTask(tasks, task), TaskNode(task))
    requires forall e :: e in EventsOfTask(tasks, task) ==> e.id !in grown
    ensures TasksOwned(tasks, done + [task], owners, next)
  {
    forall id | id in next ensures id in owners || exists e :: e in tasks && e.task in done + [task] && e.id == id {
      if id !in grown {
        var e :| e in EventsOfTask(tasks, task) && e.id == id;
      } else if id !in owners {
        var e :| e in tasks && e.task in done && e.id == id;
      }
    }
    forall e | e in tasks && e.task in done + [task] ensures e.id in next && next[e.id] == TaskNode(e.task) {
      if e.task == task {
        assert e in EventsOfTask(tasks, task);
      }
    }
  }

  /** The task's node joins its child's lane, or opens a region of its own. */
  method PlaceTask(events: seq<Event>, grouped: seq<Event>, task: string, ghost done: seq<string>,
    ghost others: seq<Placed>, lanes: Members, before: seq<Placed>) returns (members: Members, nodes: seq<Placed>)
    requires TasksPlaced(events, done, others, lanes, before) && task !in done
    requires grouped == EventsOfTask(TaskEvents(events), task)
    ensures TasksPlaced(events, done + [task], others, members, nodes)
  {
    TaskJoins(events, done, others, lanes, before, task);
    var child := ChildRun(grouped);
    if Lane(child) in lanes {
      members := lanes[Lane(child) := lanes[Lane(child)] + [TaskNode(task)]];
      nodes := before + [Regions.Node(TaskNode(task), Lane(child))];
    } else {
      members := lanes[TaskRegion(task) := [TaskNode(task)]];
      nodes := before + [Regions.Node(TaskNode(task), TaskRegion(task))];
    }
  }

  /** The task nodes join the run nodes; this never raises. */
  method AddTasks(events: seq<Event>, tasks: seq<Event>, owners: Owners, lanes: Members, others: seq<Placed>)
    returns (grown: Owners, ids: seq<string>, members: Members, nodes: seq<Placed>)
    requires Unique(tasks) && tasks == TaskEvents(events) && forall e :: e in tasks ==> e.id !in owners
    requires Regions.IsPlaced(lanes, others) && forall r :: r in lanes <==> r.Lane? && HasLane(events, r.run)
    ensures forall id :: id in grown <==> id in owners || exists e :: e in tasks && e.task != "" && e.id == id
    ensures forall id :: id in owners ==> grown[id] == owners[id]
    ensures forall e :: e in tasks && e.task != "" ==> grown[e.id] == TaskNode(e.task)
    ensures forall k :: k in ids <==> k != "" && exists e :: e in tasks && e.task == k
    ensures TasksPlaced(events, ids, others, members, nodes)
  {
    ids := DistinctKeys((e: Event) => e.task, tasks);
    grown, members, nodes := owners, lanes, others;
    for k := 0 to |ids|
      invariant TasksOwned(tasks, ids[..k], owners, grown) && TasksPlaced(events, ids[..k], others, members, nodes)
    {
      assert ids[..k + 1] == ids[..k] + [ids[k]] && ids[k] !in ids[..k];
      var grouped := EventsOfTask(tasks, ids[k]);
      PickIsUnique((e: Event) => e.task == ids[k], tasks);
      TaskIsFree(tasks, ids[..k], owners, grown, ids[k]);
      var added := Add(grown, grouped, TaskNode(ids[k]));
      TaskJoinsOwned(tasks, ids[..k], owners, grown, ids[k], added.value);
      grown := added.value;
      members, nodes := PlaceTask(events, grouped, ids[k], ids[..k], others, members, nodes);
    }
    assert ids[..|ids|] == ids;
  }

  /** Each event of the trace is owned by the node it names, or ignored, and never both. */
  ghost predicate IsTracePartition(events: seq<Event>, owners: Owners, ignored: seq<string>) {
    forall e :: e in events ==>
      match NodeOf(events, e)
      case Some(node) => e.id in owners && owners[e.id] == node && e.id !in ignored
      case None => e.id !in owners && e.id in ignored
  }

  /** The owner inside a run, if the event's node is one. */
  function InnerOwner(owners: Owners, e: Event): Option<Owner> {
    if e.id in owners && owners[e.id].Inner? then Some(owners[e.id].owner) else None
  }

  /** An earlier subagent event has the event's idempotency key. */
  ghost predicate IsRepetition(events: seq<Event>, e: Event) {
    exists i, j :: 0 <= i < j < |events| && events[j] == e && events[i].kind.Subagent?
                   && e.idempotency.Some? && events[i].idempotency == e.idempotency
  }

  /** The owner of an event by its own fields: its run, a node inside its run, its task, or none. */
  ghost predicate IsOwnedByFields(events: seq<Event>, owners: Owners, e: Event) {
    if e.kind.Subagent? then
      if e.task != "" && !IsRepetition(events, e) then e.id in owners && owners[e.id] == TaskNode(e.task)
      else e.id !in owners
    else if e.run == "" then e.id !in owners
    else if e.kind in {RunStarted, RunFinished} then e.id in owners && owners[e.id] == RunNode(e.run)
    else
      && IsNamed(true, e, InnerOwner(owners, e))
      && (e.id in owners ==> owners[e.id].Inner? && owners[e.id].run == e.run)
  }

  lemma TraceIsByFields(events: seq<Event>, owners: Owners, ignored: seq<string>, e: Event)
    requires IsTracePartition(events, owners, ignored) && e in events && !(InRun(e) && ClaimedTwice(e))
    ensures IsOwnedByFields(events, owners, e)
  {
    assert IsDuplicate(events, e) <==> IsRepetition(events, e);
    if InRun(e) {
      OwnerIsNamed(true, e);
    }
  }

  /** The nodes are exactly those the events call for, each in its own region and in no other. */
  ghost predicate IsTraceLayout(events: seq<Event>, members: Members, nodes: seq<Placed>) {
    && Regions.IsPlaced(members, nodes)
    && forall n :: n in nodes <==> IsTraceNode(events, n.id) && n.region == HomeOf(events, n.id)
  }

  lemma LayoutOfParts(events: seq<Event>, runs: seq<string>, lanes: Members, others: seq<Placed>, ids: seq<string>,
    members: Members, nodes: seq<Placed>)
    requires LanesPlaced(events, runs, lanes, others) && TasksPlaced(events, ids, others, members, nodes)
    requires forall run :: run in runs <==> HasLane(events, run)
    requires forall task :: task in ids <==> task != "" && exists e :: e in TaskEvents(events) && e.task == task
    ensures IsTraceLayout(events, members, nodes)
  {
    forall n: Placed
      ensures n in others <==> !n.id.TaskNode? && IsTraceNode(events, n.id) && n.region == HomeOf(events, n.id)
    {
      if !n.id.TaskNode? {
        RunNodesOfTrace(events, n.id);
      }
    }
    forall n: Placed
      ensures IsPlacedTask(events, ids, n) <==>
                n.id.TaskNode? && IsTraceNode(events, n.id) && n.region == HomeOf(events, n.id)
    {
      if n.id.TaskNode? {
        TaskNodesOfTrace(events, n.id.task);
      }
    }
  }

  lemma RunNodesOfTrace(events: seq<Event>, node: Node)
    requires !node.TaskNode?
    ensures IsTraceNode(events, node) <==> HasLane(events, node.run) && IsNodeOfRun(events, node.run, node)
  {
    if IsTraceNode(events, node) && !(node.RunNode? && HasLane(events, node.run)) {
      var e :| e in events && NodeOf(events, e) == Some(node);
      assert InRun(e) && BelongsTo(e, node.run) && NodeOfRunEvent(e) == Some(node);
    }
    if HasLane(events, node.run) && IsNodeOfRun(events, node.run, node) && !node.RunNode? {
      var e :| e in events && BelongsTo(e, node.run) && NodeOfRunEvent(e) == Some(node);
      assert NodeOf(events, e) == Some(node);
    }
  }

  lemma TaskNodesOfTrace(events: seq<Event>, task: string)
    ensures IsTraceNode(events, TaskNode(task)) <==> task != "" && exists e :: e in TaskEvents(events) && e.task == task
  {
    if IsTraceNode(events, TaskNode(task)) {
      var e :| e in events && NodeOf(events, e) == Some(TaskNode(task));
      assert e in TaskEvents(events) && e.task == task;
    }
    if task != "" && exists e :: e in TaskEvents(events) && e.task == task {
      var e :| e in TaskEvents(events) && e.task == task;
      assert NodeOf(events, e) == Some(TaskNode(task));
    }
  }

  /**
   * `_trace_full_nodes`: it raises if and only if an event of a run is claimed twice, or is a
   * lifecycle event that a pass takes as well. Otherwise the events are partitioned, and the nodes
   * are those they call for, each in the lane of its run, in its child's lane or in its own region.
   */
  method TraceFullNodes(events: seq<Event>)
    returns (owners: Option<Owners>, ignored: seq<string>, members: Members, nodes: seq<Placed>)
    requires Unique(events)
    ensures owners.None? <==>
              exists e :: e in events && !e.kind.Subagent? && e.run != "" && (ClaimedTwice(e) || LifecycleTaken(e))
    ensures owners.Some? ==> IsTracePartition(events, owners.value, ignored) && IsTraceLayout(events, members, nodes)
    ensures owners.Some? ==> forall e :: e in events ==>
              IsOwnedByFields(events, owners.value, e) && (e.id in owners.value <==> e.id !in ignored)
  {
    var tasks, dropped := DropDuplicates(events);
    ignored := dropped;
    var runOwners, runs, lanes, inLanes := AddRuns(events);
    if runOwners.None? {
      return None, ignored, map[], [];
    }
    var inRuns := runOwners.value;
    forall e | e in tasks ensures e.id !in inRuns {
      forall f | f in events && f.id == e.id ensures f == e {
        SameIdSameEvent(events, e, f);
      }
    }
    var all, ids, grown, placed := AddTasks(events, tasks, inRuns, lanes, inLanes);
    LayoutOfParts(events, runs, lanes, inLanes, ids, grown, placed);
    ignored := IgnoreUnowned(events, all, dropped);
    PartitionOfParts(events, tasks, dropped, inRuns, all, ignored);
    forall e | e in events ensures IsOwnedByFields(events, all, e) {
      TraceIsByFields(events, all, ignored, e);
    }
    return Some(all), ignored, grown, placed;
  }

  function Lacks(owners: Owners): Event -> bool {
    (e: Event) => e.id !in owners
  }

  lemma IdsOfAppended(events: seq<Event>, e: Event)
    ensures IdsOf(events + [e]) == IdsOf(events) + [e.id]
  {
  }

  /** Every event that has no owner in the end is ignored. */
  method IgnoreUnowned(events: seq<Event>, all: Owners, dropped: seq<string>) returns (ignored: seq<string>)
    ensures ignored == dropped + IdsOf(Pick(Lacks(all), events))
  {
    ignored := dropped;
    for n := 0 to |events|
      invariant ignored == dropped + IdsOf(Pick(Lacks(all), events[..n]))
    {
      PickStep(Lacks(all), events, n);
      IdsOfAppended(Pick(Lacks(all), events[..n]), events[n]);
      assert Pick(Lacks(all), events[..n]) + [] == Pick(Lacks(all), events[..n]);
      if events[n].id !in all {
        ignored := ignored + [events[n].id];
      }
    }
    assert events[..|events|] == events;
  }

  lemma PartitionOfParts(events: seq<Event>, tasks: seq<Event>, dropped: seq<string>, inRuns: Owners, all: Owners,
    ignored: seq<string>)
    requires Unique(events) && forall f :: f in tasks <==> IsTaskEvent(events, f)
    requires forall id :: id in dropped <==> exists f :: f in events && IsRepeated(events, f) && f.id == id
    requires forall f :: f in events && InRun(f) && NodeOfRunEvent(f).Some? ==>
               f.id in inRuns && inRuns[f.id] == NodeOfRunEvent(f).value
    requires forall id :: id in inRuns ==> exists f :: f in events && InRun(f) && f.id == id && NodeOfRunEvent(f).Some?
    requires forall id :: id in all <==> id in inRuns || exists f :: f in tasks && f.task != "" && f.id == id
    requires forall id :: id in inRuns ==> all[id] == inRuns[id]
    requires forall f :: f in tasks && f.task != "" ==> all[f.id] == TaskNode(f.task)
    requires ignored == dropped + IdsOf(Pick(Lacks(all), events))
    ensures IsTracePartition(events, all, ignored)
  {
    forall e | e in events
      ensures match NodeOf(events, e)
              case Some(node) => e.id in all && all[e.id] == node && e.id !in ignored
              case None => e.id !in all && e.id in ignored
    {
      EventPlaced(events, tasks, dropped, inRuns, all, ignored, e);
    }
  }

  /** `build` at level `trace_full`: the check on the regions never adds a failure of its own. */
  method BuildTraceFullGraph(events: seq<Event>) returns (built: bool, members: Members, nodes: seq<Placed>)
    requires Unique(events)
    ensures built <==> forall e :: e in events && InRun(e) ==> !ClaimedTwice(e) && !LifecycleTaken(e)
    ensures built ==> IsTraceLayout(events, members, nodes)
  {
    var owners, ignored;
    owners, ignored, members, nodes := TraceFullNodes(events);
    if owners.None? {
      return false, members, nodes;
    }
    Regions.PlacedIsConsistent(members, nodes);
    built := Regions.ValidateMembership(members, nodes);
  }

  /**
   * An attempt id on model attempts only is not enough for that: a `run_finished` event that names
   * a goal is owned by its goal's node and by its run's node.
   */
  method GoalOnRunFinishedRaises() returns (e: Event, owners: Option<Owners>)
    ensures e == Event("e", RunFinished, "r", "", None, "", "", "", "", "g", "", "", "", None) && e.attempt == ""
    ensures OwnerOf(true, e) == Some(Owner(Goal, "g")) && NodeOf([e], e) == Some(RunNode("r"))
    ensures owners == None
  {
    e := Event("e", RunFinished, "r", "", None, "", "", "", "", "g", "", "", "", None);
    assert e in [e] && InRun(e) && LifecycleTaken(e);
    var ignored, members, nodes;
    owners, ignored, members, nodes := TraceFullNodes([e]);
  }

  lemma EventPlaced(events: seq<Event>, tasks: seq<Event>, dropped: seq<string>, inRuns: Owners, all: Owners,
    ignored: seq<string>, e: Event)
    requires Unique(events) && e in events
    requires forall f :: f in tasks <==> IsTaskEvent(events, f)
    requires forall id :: id in dropped <==> exists f :: f in events && IsRepeated(events, f) && f.id == id
    requires forall f :: f in events && InRun(f) && NodeOfRunEvent(f).Some? ==>
               f.id in inRuns && inRuns[f.id] == NodeOfRunEvent(f).value
    requires forall id :: id in inRuns ==> exists f :: f in events && InRun(f) && f.id == id && NodeOfRunEvent(f).Some?
    requires forall id :: id in all <==> id in inRuns || exists f :: f in tasks && f.task != "" && f.id == id
    requires forall id :: id in inRuns ==> all[id] == inRuns[id]
    requires forall f :: f in tasks && f.task != "" ==> all[f.id] == TaskNode(f.task)
    requires forall id :: id in ignored <==> id in dropped || exists f :: f in events && f.id == id && f.id !in all
    ensures match NodeOf(events, e)
            case Some(node) => e.id in all && all[e.id] == node && e.id !in ignored
            case None => e.id !in all && e.id in ignored
  {
    if e.id in inRuns {
      var f :| f in events && InRun(f) && f.id == e.id && NodeOfRunEvent(f).Some?;
      SameIdSameEvent(events, e, f);
    } else if e.id in all {
      var f :| f in tasks && f.task != "" && f.id == e.id;
      SameIdSameEvent(events, e, f);
    }
    if e.id in dropped {
      var f :| f in events && IsRepeated(events, f) && f.id == e.id;
      SameIdSameEvent(events, e, f);
    }
  }
}

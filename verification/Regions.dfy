/** Which region of a graph each node lies in, and the check on it. */
module Regions {
  import opened Partition
  import opened Wrappers

  /** A node of a graph and the region it names. */
  datatype Node<I, K> = Node(id: I, region: K)

  type Members<K, I> = map<K, seq<I>>

  /** Every node lies in the region it names and in no other, and no region holds anything else. */
  ghost predicate IsPlaced<I, K>(members: Members<K, I>, nodes: seq<Node<I, K>>) {
    && (forall n :: n in nodes ==> n.region in members && n.id in members[n.region])
    && forall r, id :: r in members && id in members[r] ==> Node(id, r) in nodes
  }

  ghost predicate IsCovered<I, K>(members: Members<K, I>, id: I) {
    exists r :: r in members && id in members[r]
  }

  ghost predicate IsNode<I, K>(nodes: seq<Node<I, K>>, id: I) {
    exists n :: n in nodes && n.id == id
  }

  /** What the check demands: the regions' members are the nodes, and each node is where it says. */
  ghost predicate IsConsistent<I(!new), K(!new)>(members: Members<K, I>, nodes: seq<Node<I, K>>) {
    && (forall id :: IsCovered(members, id) <==> IsNode(nodes, id))
    && forall n :: n in nodes ==> n.region in members && n.id in members[n.region]
  }

  lemma PlacedIsConsistent<I(!new), K(!new)>(members: Members<K, I>, nodes: seq<Node<I, K>>)
    requires IsPlaced(members, nodes)
    ensures IsConsistent(members, nodes)
  {
    forall id | IsCovered(members, id) ensures IsNode(nodes, id) {
      var r :| r in members && id in members[r];
      assert Node(id, r) in nodes;
    }
  }

  /** The members of a region, none if it is not open. */
  function MembersOf<I, K>(members: Members<K, I>, region: K): seq<I> {
    if region in members then members[region] else []
  }

  /** Adding nodes that name one region to its members, opening it if it is new. */
  lemma PlacingKeeps<I, K>(members: Members<K, I>, nodes: seq<Node<I, K>>, region: K, added: seq<Node<I, K>>,
    ids: seq<I>)
    requires IsPlaced(members, nodes)
    requires |ids| == |added| && forall i :: 0 <= i < |added| ==> added[i] == Node(ids[i], region)
    ensures IsPlaced(members[region := MembersOf(members, region) + ids], nodes + added)
  {
    var grown := members[region := MembersOf(members, region) + ids];
    forall n | n in nodes + added ensures n.region in grown && n.id in grown[n.region] {
      if n in added {
        var i :| 0 <= i < |added| && added[i] == n;
        assert n.id == ids[i];
      }
    }
    forall r, id | r in grown && id in grown[r] ensures Node(id, r) in nodes + added {
      if !(r in members && id in members[r]) {
        var i :| 0 <= i < |ids| && ids[i] == id;
        assert added[i] == Node(id, r);
      }
    }
  }

  /** `_validate_membership`: the union of the regions' members against the nodes, then each node's region. */
  method ValidateMembership<I(==, !new), K(==, !new)>(members: Members<K, I>, nodes: seq<Node<I, K>>)
    returns (valid: bool)
    ensures valid <==> IsConsistent(members, nodes)
  {
    var covered := set r, id | r in members && id in members[r] :: id;
    var ids := set n | n in nodes :: n.id;
    assert forall id :: id in ids <==> IsNode(nodes, id);
    assert forall id :: id in covered <==> IsCovered(members, id);
    if covered != ids {
      return false;
    }
    for k := 0 to |nodes|
      invariant forall j :: 0 <= j < k ==> nodes[j].region in members && nodes[j].id in members[nodes[j].region]
    {
      if nodes[k].region !in members || nodes[k].id !in members[nodes[k].region] {
        return false;
      }
    }
    return true;
  }

  // ---- the graph of one run ----

  /** A region is an iteration, or the context of the run where there is none. */
  type Key = Option<int>

  /** The iteration of the event that opens the group. */
  function RegionOf(g: Group): Key
    requires g.members != []
  {
    g.members[0].iteration
  }

  /** One region for each iteration met, and one for events without; all empty. */
  method OpenRegions(events: seq<Event>) returns (members: Members<Key, Owner>)
    ensures forall r :: r in members <==> exists e :: e in events && e.iteration == r
    ensures forall r :: r in members ==> members[r] == []
  {
    members := map[];
    for k := 0 to |events|
      invariant forall r :: r in members <==> exists e :: e in events[..k] && e.iteration == r
      invariant forall r :: r in members ==> members[r] == []
    {
      assert events[..k + 1] == events[..k] + [events[k]];
      members := members[events[k].iteration := []];
    }
    assert events[..|events|] == events;
  }

  /** The end of `_run_nodes`: each node names the region of its first event and joins its members. */
  method PlaceNodes(events: seq<Event>, groups: seq<Group>)
    returns (members: Members<Key, Owner>, nodes: seq<Node<Owner, Key>>)
    requires forall i, e :: 0 <= i < |groups| && e in groups[i].members ==> e in events
    requires forall i :: 0 <= i < |groups| ==> groups[i].members != []
    ensures forall r :: r in members <==> exists e :: e in events && e.iteration == r
    ensures |nodes| == |groups|
    ensures forall i :: 0 <= i < |groups| ==> nodes[i] == Node(groups[i].owner, groups[i].members[0].iteration)
    ensures IsPlaced(members, nodes)
  {
    members := OpenRegions(events);
    nodes := [];
    for i := 0 to |groups|
      invariant |nodes| == i && forall j :: 0 <= j < i ==> nodes[j] == Node(groups[j].owner, RegionOf(groups[j]))
      invariant forall r :: r in members <==> exists e :: e in events && e.iteration == r
      invariant IsPlaced(members, nodes)
    {
      assert groups[i].members[0] in groups[i].members;
      var node := Node(groups[i].owner, RegionOf(groups[i]));
      PlacingKeeps(members, nodes, node.region, [node], [node.id]);
      members := members[node.region := members[node.region] + [node.id]];
      nodes := nodes + [node];
    }
  }

  /** Event `k` is the first of the node's events, and the node lies in its iteration's region. */
  predicate Opens(inputs: bool, events: seq<Event>, k: int, n: Node<Owner, Key>) {
    && 0 <= k < |events| && OwnerOf(inputs, events[k]) == Some(n.id) && n.region == events[k].iteration
    && forall j :: 0 <= j < k ==> OwnerOf(inputs, events[j]) != Some(n.id)
  }

  lemma FirstMemberOpens(inputs: bool, events: seq<Event>, g: RunGraph, i: nat)
    requires Unique(events) && IsPartition(inputs, events, g) && i < |g.groups|
    ensures g.groups[i].members != []
    ensures exists k :: Opens(inputs, events, k, Node(g.groups[i].owner, g.groups[i].members[0].iteration))
  {
    var group := g.groups[i];
    var at: seq<nat> :| Keeps(events, at, group.members);
    assert group.members[0] in group.members && events[at[0]] == group.members[0];
    forall j | 0 <= j < |events| && OwnerOf(inputs, events[j]) == Some(group.owner) ensures at[0] <= j {
      EarlierIsMember(inputs, events, g, i, j);
      NotBeforeFirst(events, at, group.members, j);
    }
    assert Opens(inputs, events, at[0], Node(group.owner, group.members[0].iteration));
  }

  lemma NotBeforeFirst(events: seq<Event>, at: seq<nat>, members: seq<Event>, j: nat)
    requires Unique(events) && Keeps(events, at, members) && members != [] && j < |events| && events[j] in members
    ensures at[0] <= j
  {
    var l :| 0 <= l < |members| && members[l] == events[j];
    assert events[at[l]].id == events[j].id;
  }

  lemma EarlierIsMember(inputs: bool, events: seq<Event>, g: RunGraph, i: nat, j: nat)
    requires IsPartition(inputs, events, g) && i < |g.groups| && j < |events|
    requires OwnerOf(inputs, events[j]) == Some(g.groups[i].owner)
    ensures events[j] in g.groups[i].members
  {
    var m := g.owners[events[j].id];
    assert events[j] in events && g.groups[m].owner == g.groups[i].owner;
  }

  /**
   * Building a run's graph fails if and only if an event is claimed twice: the check on the regions
   * never adds a failure of its own.
   */
  method BuildRunGraph(inputs: bool, events: seq<Event>)
    returns (built: bool, members: Members<Key, Owner>, nodes: seq<Node<Owner, Key>>)
    requires Unique(events)
    ensures built <==> forall e :: e in events ==> !ClaimedTwice(e)
    ensures built ==> IsPlaced(members, nodes)
    ensures built ==> forall r :: r in members <==> exists e :: e in events && e.iteration == r
    ensures built ==> forall n :: n in nodes ==> exists k :: Opens(inputs, events, k, n)
    ensures built ==> forall e :: e in events && OwnerOf(inputs, e).Some? ==>
              exists n :: n in nodes && n.id == OwnerOf(inputs, e).value
  {
    var graph := RunNodes(inputs, events);
    if graph.None? {
      return false, map[], [];
    }
    GroupsAreInEvents(inputs, events, graph.value);
    forall i | 0 <= i < |graph.value.groups|
      ensures exists k :: Opens(inputs, events, k,
                                Node(graph.value.groups[i].owner, graph.value.groups[i].members[0].iteration))
    {
      FirstMemberOpens(inputs, events, graph.value, i);
    }
    members, nodes := PlaceNodes(events, graph.value.groups);
    PlacedIsConsistent(members, nodes);
    built := ValidateMembership(members, nodes);
  }

  lemma GroupsAreInEvents(inputs: bool, events: seq<Event>, g: RunGraph)
    requires IsPartition(inputs, events, g)
    ensures forall i, e :: 0 <= i < |g.groups| && e in g.groups[i].members ==> e in events
    ensures forall i :: 0 <= i < |g.groups| ==> g.groups[i].members != []
  {
  }
}

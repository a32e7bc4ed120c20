/**
 * The tree of runs of a trace, built depth first over a parent relation that may be cyclic, with
 * a flag that reports a cycle.
 */
module RunTree {
  import opened Wrappers

  type RunId = string

  /** A node of the tree; the source's status fields do not affect its shape. */
  datatype Node = Node(run: RunId, children: seq<Node>)

  /** Started runs in sorted order, and the parent each one names. */
  datatype Starts = Starts(order: seq<RunId>, named: map<RunId, Option<RunId>>)

  ghost predicate Valid(starts: Starts) {
    && (forall r :: r in starts.order <==> r in starts.named)
    && (forall i, j :: 0 <= i < j < |starts.order| ==> starts.order[i] != starts.order[j])
  }

  /** The named parent, when it has started. */
  function Parent(starts: Starts, r: RunId): (p: Option<RunId>)
    ensures p.Some? ==> p.value in starts.named
  {
    if r in starts.named && starts.named[r].Some? && starts.named[r].value in starts.named
    then starts.named[r] else None
  }

  predicate IsRoot(starts: Starts, r: RunId) {
    r in starts.named && Parent(starts, r).None?
  }

  /** Runs among `rs` with parent `p`, in order. */
  function ChildrenIn(starts: Starts, rs: seq<RunId>, p: RunId): seq<RunId> {
    if rs == [] then []
    else (if Parent(starts, rs[0]) == Some(p) then [rs[0]] else []) + ChildrenIn(starts, rs[1..], p)
  }

  function Children(starts: Starts, p: RunId): seq<RunId> {
    ChildrenIn(starts, starts.order, p)
  }

  function RootsIn(starts: Starts, rs: seq<RunId>): seq<RunId> {
    if rs == [] then []
    else (if IsRoot(starts, rs[0]) then [rs[0]] else []) + RootsIn(starts, rs[1..])
  }

  function Outside(rs: seq<RunId>, seen: set<RunId>): seq<RunId> {
    if rs == [] then []
    else (if rs[0] in seen then [] else [rs[0]]) + Outside(rs[1..], seen)
  }

  /** Runs left to enter below a node whose ancestors are `visiting`. */
  function Left(starts: Starts, visiting: set<RunId>): nat {
    |starts.named.Keys - visiting|
  }

  // ---- What the recursive closure computes ----

  function TreeOf(starts: Starts, r: RunId, visiting: set<RunId>): Node
    decreases Left(starts, visiting), 0
  {
    if r in visiting || r !in starts.named then Node(r, [])
    else
      Entering(starts, r, visiting);
      Node(r, ForestOf(starts, Children(starts, r), visiting + {r}))
  }

  function ForestOf(starts: Starts, rs: seq<RunId>, visiting: set<RunId>): seq<Node>
    decreases Left(starts, visiting), 1 + |rs|
  {
    if rs == [] then [] else [TreeOf(starts, rs[0], visiting)] + ForestOf(starts, rs[1..], visiting)
  }

  /** Whether building at `r` meets a run that is being built. */
  predicate MeetsItself(starts: Starts, r: RunId, visiting: set<RunId>)
    decreases Left(starts, visiting), 0
  {
    if r in visiting then true
    else if r !in starts.named then false
    else
      Entering(starts, r, visiting);
      AnyMeetsItself(starts, Children(starts, r), visiting + {r})
  }

  predicate AnyMeetsItself(starts: Starts, rs: seq<RunId>, visiting: set<RunId>)
    decreases Left(starts, visiting), 1 + |rs|
  {
    rs != [] && (MeetsItself(starts, rs[0], visiting) || AnyMeetsItself(starts, rs[1..], visiting))
  }

  function RunsOf(n: Node): multiset<RunId> {
    multiset{n.run} + RunsOfAll(n.children)
  }

  function RunsOfAll(ns: seq<Node>): multiset<RunId> {
    if ns == [] then multiset{} else RunsOf(ns[0]) + RunsOfAll(ns[1..])
  }

  lemma Entering(starts: Starts, r: RunId, visiting: set<RunId>)
    requires r in starts.named && r !in visiting
    ensures Left(starts, visiting + {r}) < Left(starts, visiting)
  {
    assert starts.named.Keys - visiting == (starts.named.Keys - (visiting + {r})) + {r};
  }

  lemma Unfolded(starts: Starts, r: RunId, visiting: set<RunId>)
    requires r in starts.named && r !in visiting
    ensures TreeOf(starts, r, visiting) == Node(r, ForestOf(starts, Children(starts, r), visiting + {r}))
    ensures MeetsItself(starts, r, visiting) == AnyMeetsItself(starts, Children(starts, r), visiting + {r})
    ensures visiting + {r} - {r} == visiting
  {
  }

  /** Just the runs of some nodes were added to those seen. */
  ghost predicate Covers(before: set<RunId>, after: set<RunId>, runs: multiset<RunId>) {
    forall x :: x in after <==> x in before || x in runs
  }

  /** A node adds itself and what its children add. */
  lemma CoversNode(before: set<RunId>, outer: set<RunId>, after: set<RunId>, r: RunId, nodes: seq<Node>)
    requires r !in outer && Covers(before + (outer + {r}), after + (outer + {r}), RunsOfAll(nodes))
    ensures Covers(before + outer, after + {r} + outer, RunsOf(Node(r, nodes)))
  {
    assert forall x :: x in RunsOf(Node(r, nodes)) <==> x == r || x in RunsOfAll(nodes);
  }

  /** The closure's shared variables. */
  class Builder {
    var visiting: set<RunId>
    var visited: set<RunId>
    var cycle: bool

    constructor ()
      ensures visiting == {} && visited == {} && !cycle
    {
      visiting, visited, cycle := {}, {}, false;
    }

    method Build(starts: Starts, r: RunId) returns (node: Node)
      requires Valid(starts) && r in starts.named
      modifies this
      ensures node == TreeOf(starts, r, old(visiting))
      ensures visiting == old(visiting)
      ensures cycle == (old(cycle) || MeetsItself(starts, r, old(visiting)))
      ensures Covers(old(visited) + visiting, visited + visiting, RunsOf(node))
      decreases Left(starts, visiting), 1
    {
      if r in visiting {
        cycle := true;
        return Node(r, []);
      }
      Unfolded(starts, r, visiting);
      var nodes := BuildBelow(starts, r);
      node := Node(r, nodes);
    }

    /** The children, while the run itself is being visited. */
    method BuildBelow(starts: Starts, r: RunId) returns (nodes: seq<Node>)
      requires Valid(starts) && r in starts.named && r !in visiting
      modifies this
      ensures nodes == ForestOf(starts, Children(starts, r), old(visiting) + {r})
      ensures visiting == old(visiting)
      ensures cycle == (old(cycle) || AnyMeetsItself(starts, Children(starts, r), old(visiting) + {r}))
      ensures Covers(old(visited) + visiting, visited + visiting, RunsOf(Node(r, nodes)))
      decreases Left(starts, visiting), 0
    {
      Entering(starts, r, visiting);
      ghost var outer := visiting;
      visiting := visiting + {r};
      ChildrenAreStarted(starts, starts.order, r);
      nodes := BuildAll(starts, Children(starts, r));
      visiting := visiting - {r};
      CoversNode(old(visited), outer, visited, r, nodes);
      visited := visited + {r};
      assert visiting == outer;
    }

    method BuildAll(starts: Starts, rs: seq<RunId>) returns (nodes: seq<Node>)
      requires Valid(starts) && forall r :: r in rs ==> r in starts.named
      modifies this
      ensures nodes == ForestOf(starts, rs, old(visiting))
      ensures visiting == old(visiting)
      ensures cycle == (old(cycle) || AnyMeetsItself(starts, rs, old(visiting)))
      ensures Covers(old(visited) + visiting, visited + visiting, RunsOfAll(nodes))
      decreases Left(starts, visiting), 2 + |rs|
    {
      if rs == [] {
        return [];
      }
      var first := Build(starts, rs[0]);
      var rest := BuildAll(starts, rs[1..]);
      nodes := [first] + rest;
    }
  }

  lemma {:induction false} ChildrenAreStarted(starts: Starts, rs: seq<RunId>, p: RunId)
    ensures forall c :: c in ChildrenIn(starts, rs, p) <==> c in rs && Parent(starts, c) == Some(p)
  {
    if rs != [] {
      ChildrenAreStarted(starts, rs[1..], p);
      assert rs == [rs[0]] + rs[1..];
    }
  }

  lemma {:induction false} RootsAreStarted(starts: Starts, rs: seq<RunId>)
    ensures forall r :: r in RootsIn(starts, rs) <==> r in rs && IsRoot(starts, r)
  {
    if rs != [] {
      RootsAreStarted(starts, rs[1..]);
      assert rs == [rs[0]] + rs[1..];
    }
  }

  lemma {:induction false} OutsideMembers(rs: seq<RunId>, seen: set<RunId>)
    ensures forall r :: r in Outside(rs, seen) <==> r in rs && r !in seen
  {
    if rs != [] {
      OutsideMembers(rs[1..], seen);
      assert rs == [rs[0]] + rs[1..];
    }
  }

  // ---- Following parents ----

  /** The run reached from `x` by following `k` parents. */
  function Up(starts: Starts, x: RunId, k: nat): Option<RunId> {
    if k == 0 then Some(x)
    else
      var below := Up(starts, x, k - 1);
      if below.Some? then Parent(starts, below.value) else None
  }

  /** `a` is a proper ancestor of `x`. */
  ghost predicate ProperlyAbove(starts: Starts, a: RunId, x: RunId) {
    exists k: nat :: k > 0 && Up(starts, x, k) == Some(a)
  }

  /** A run that is its own ancestor. */
  ghost predicate OnCycle(starts: Starts, x: RunId) {
    ProperlyAbove(starts, x, x)
  }

  ghost predicate HasCycle(starts: Starts) {
    exists x :: OnCycle(starts, x)
  }

  /** `a` is `x` or an ancestor of `x`. */
  ghost predicate Above(starts: Starts, a: RunId, x: RunId) {
    exists k: nat :: Up(starts, x, k) == Some(a)
  }

  lemma {:induction false} UpUp(starts: Starts, x: RunId, i: nat, a: RunId, j: nat)
    requires Up(starts, x, i) == Some(a)
    ensures Up(starts, x, i + j) == Up(starts, a, j)
  {
    if j > 0 {
      UpUp(starts, x, i, a, j - 1);
    }
  }

  lemma AboveChild(starts: Starts, a: RunId, c: RunId, x: RunId)
    requires Parent(starts, c) == Some(a) && Above(starts, c, x)
    ensures Above(starts, a, x)
  {
    var k: nat :| Up(starts, x, k) == Some(c);
    assert Up(starts, x, k + 1) == Some(a);
  }

  /** Without cycles the run below an ancestor is determined. */
  lemma OneStepBelow(starts: Starts, a: RunId, c: RunId, d: RunId, x: RunId)
    requires Parent(starts, c) == Some(a) == Parent(starts, d)
    requires Above(starts, c, x) && Above(starts, d, x) && !OnCycle(starts, a)
    ensures c == d
  {
    var i: nat :| Up(starts, x, i) == Some(c);
    var j: nat :| Up(starts, x, j) == Some(d);
    assert Up(starts, x, i + 1) == Some(a) == Up(starts, x, j + 1);
    if i < j {
      UpUp(starts, x, i + 1, a, j - i);
    } else if j < i {
      UpUp(starts, x, j + 1, a, i - j);
    }
  }

  /** Without cycles following parents ends at a root. */
  lemma {:induction false} RootAbove(starts: Starts, x: RunId, below: set<RunId>) returns (a: RunId)
    requires x in starts.named && x !in below && below <= starts.named.Keys
    requires forall b :: b in below ==> ProperlyAbove(starts, x, b)
    requires !HasCycle(starts)
    ensures IsRoot(starts, a) && Above(starts, a, x)
    decreases Left(starts, below)
  {
    if IsRoot(starts, x) {
      a := x;
      assert Up(starts, x, 0) == Some(x);
    } else {
      var p := Parent(starts, x).value;
      assert !OnCycle(starts, p);
      forall b | b in below + {x} ensures ProperlyAbove(starts, p, b) {
        if b == x {
          assert Up(starts, x, 0) == Some(x) && Up(starts, x, 1) == Some(p);
        } else {
          var j: nat :| j > 0 && Up(starts, b, j) == Some(x);
          assert Up(starts, b, j + 1) == Some(p);
        }
      }
      Entering(starts, x, below);
      a := RootAbove(starts, p, below + {x});
      var k: nat :| Up(starts, p, k) == Some(a);
      assert Up(starts, x, 0) == Some(x) && Up(starts, x, 1) == Some(p);
      UpUp(starts, x, 1, p, k);
    }
  }

  // ---- The flag reports exactly the cycles ----

  /** Meeting a run being built, below its own ancestors, means that run is on a cycle. */
  lemma {:induction false} MeetingIsCycle(starts: Starts, r: RunId, visiting: set<RunId>)
    requires forall v :: v in visiting ==> ProperlyAbove(starts, v, r)
    requires MeetsItself(starts, r, visiting)
    ensures HasCycle(starts)
    decreases Left(starts, visiting), 0
  {
    if r in visiting {
      assert OnCycle(starts, r);
    } else {
      Entering(starts, r, visiting);
      ChildrenAreStarted(starts, starts.order, r);
      AnyMeetingIsCycle(starts, Children(starts, r), r, visiting + {r});
    }
  }

  lemma {:induction false} AnyMeetingIsCycle(starts: Starts, rs: seq<RunId>, p: RunId, visiting: set<RunId>)
    requires forall c :: c in rs ==> Parent(starts, c) == Some(p)
    requires forall v :: v in visiting ==> v == p || ProperlyAbove(starts, v, p)
    requires AnyMeetsItself(starts, rs, visiting)
    ensures HasCycle(starts)
    decreases Left(starts, visiting), 1 + |rs|
  {
    if MeetsItself(starts, rs[0], visiting) {
      var c := rs[0];
      forall v | v in visiting ensures ProperlyAbove(starts, v, c) {
        assert Up(starts, c, 0) == Some(c) && Up(starts, c, 1) == Some(p);
        if v != p {
          var k: nat :| k > 0 && Up(starts, p, k) == Some(v);
          UpUp(starts, c, 1, p, k);
        }
      }
      MeetingIsCycle(starts, c, visiting);
    } else {
      AnyMeetingIsCycle(starts, rs[1..], p, visiting);
    }
  }

  lemma {:induction false} SomeMeetsItself(starts: Starts, rs: seq<RunId>, c: RunId, visiting: set<RunId>)
    requires c in rs && MeetsItself(starts, c, visiting)
    ensures AnyMeetsItself(starts, rs, visiting)
  {
    if c != rs[0] {
      SomeMeetsItself(starts, rs[1..], c, visiting);
    }
  }

  lemma {:induction false} ChildMeetsItself(starts: Starts, r: RunId, c: RunId, visiting: set<RunId>)
    requires Valid(starts) && r in starts.named && c in starts.named && Parent(starts, c) == Some(r)
    requires MeetsItself(starts, c, visiting + {r})
    ensures MeetsItself(starts, r, visiting)
  {
    ChildrenAreStarted(starts, starts.order, r);
    SomeMeetsItself(starts, Children(starts, r), c, visiting + {r});
  }

  /** Runs each of which has a child among them are met again wherever building enters. */
  ghost predicate HasChildIn(starts: Starts, loop: set<RunId>, u: RunId) {
    exists c :: c in loop && Parent(starts, c) == Some(u)
  }

  lemma {:induction false} LoopMeetsItself(starts: Starts, loop: set<RunId>, r: RunId, visiting: set<RunId>)
    requires Valid(starts) && loop <= starts.named.Keys && r in loop
    requires forall u :: u in loop ==> HasChildIn(starts, loop, u)
    ensures MeetsItself(starts, r, visiting)
    decreases Left(starts, visiting)
  {
    if r !in visiting {
      assert HasChildIn(starts, loop, r);
      var c :| c in loop && Parent(starts, c) == Some(r);
      Entering(starts, r, visiting);
      LoopMeetsItself(starts, loop, c, visiting + {r});
      ChildMeetsItself(starts, r, c, visiting);
    }
  }

  lemma {:induction false} UpIsStarted(starts: Starts, x: RunId, k: nat)
    requires k > 0 && Up(starts, x, k).Some?
    ensures Up(starts, x, k).value in starts.named && Up(starts, x, k - 1).Some?
  {
  }

  /** The proper ancestors of a run on a cycle each have a child among them. */
  lemma AncestorsLoop(starts: Starts, x: RunId, u: RunId)
    requires OnCycle(starts, x) && ProperlyAbove(starts, u, x)
    ensures u in starts.named
    ensures exists c :: Parent(starts, c) == Some(u) && ProperlyAbove(starts, c, x)
  {
    var k: nat :| k > 0 && Up(starts, x, k) == Some(u);
    UpIsStarted(starts, x, k);
    var c := Up(starts, x, k - 1).value;
    assert ProperlyAbove(starts, c, x) by {
      if k == 1 {
        assert Up(starts, x, 0) == Some(x);
      }
    }
    assert Parent(starts, c) == Some(u);
  }

  lemma CycleMeetsItself(starts: Starts, x: RunId)
    requires Valid(starts) && OnCycle(starts, x)
    ensures x in starts.named && MeetsItself(starts, x, {})
  {
    AncestorsLoop(starts, x, x);
    var loop := set u | u in starts.named && ProperlyAbove(starts, u, x);
    forall u | u in loop ensures exists c :: c in loop && Parent(starts, c) == Some(u) {
      AncestorsLoop(starts, x, u);
      var c :| Parent(starts, c) == Some(u) && ProperlyAbove(starts, c, x);
      AncestorsLoop(starts, x, c);
      assert c in loop;
    }
    LoopMeetsItself(starts, loop, x, {});
  }

  // ---- Without cycles every started run is placed exactly once ----

  lemma {:induction false} SelectionsDistinct(starts: Starts, rs: seq<RunId>, p: RunId)
    requires Distinct(rs)
    ensures Distinct(ChildrenIn(starts, rs, p)) && Distinct(RootsIn(starts, rs))
  {
    if rs != [] {
      SelectionsDistinct(starts, rs[1..], p);
      ChildrenAreStarted(starts, rs[1..], p);
      RootsAreStarted(starts, rs[1..]);
    }
  }

  /** At most one of `rs` is above `x`. */
  ghost predicate OneAbove(starts: Starts, rs: seq<RunId>, x: RunId) {
    forall c, d :: c in rs && d in rs && Above(starts, c, x) && Above(starts, d, x) ==> c == d
  }

  /** How often `x` occurs below `r`: once if `r` is above it, else never. */
  function Once(occurs: bool): nat {
    if occurs then 1 else 0
  }

  ghost predicate SomeAbove(starts: Starts, rs: seq<RunId>, x: RunId) {
    exists c :: c in rs && Above(starts, c, x)
  }

  lemma {:induction false} OccursOnceBelow(starts: Starts, r: RunId, visiting: set<RunId>, x: RunId)
    requires Valid(starts) && !HasCycle(starts) && r in starts.named
    requires forall v :: v in visiting ==> ProperlyAbove(starts, v, r)
    ensures RunsOf(TreeOf(starts, r, visiting))[x] == Once(Above(starts, r, x))
    decreases Left(starts, visiting), 0
  {
    assert !OnCycle(starts, r);
    Entering(starts, r, visiting);
    var cs := Children(starts, r);
    ChildrenAreStarted(starts, starts.order, r);
    SelectionsDistinct(starts, starts.order, r);
    forall c | c in cs ensures forall v :: v in visiting + {r} ==> ProperlyAbove(starts, v, c) {
      AncestorsAboveChild(starts, r, c, visiting);
    }
    forall c, d | c in cs && d in cs && Above(starts, c, x) && Above(starts, d, x) ensures c == d {
      OneStepBelow(starts, r, c, d, x);
    }
    OccursOnceInForest(starts, cs, visiting + {r}, x);
    ChildAbove(starts, r, cs, x);
  }

  lemma AncestorsAboveChild(starts: Starts, p: RunId, c: RunId, visiting: set<RunId>)
    requires Parent(starts, c) == Some(p) && forall v :: v in visiting ==> ProperlyAbove(starts, v, p)
    ensures forall v :: v in visiting + {p} ==> ProperlyAbove(starts, v, c)
  {
    assert Up(starts, c, 0) == Some(c) && Up(starts, c, 1) == Some(p);
    forall v | v in visiting ensures ProperlyAbove(starts, v, c) {
      var k: nat :| k > 0 && Up(starts, p, k) == Some(v);
      UpUp(starts, c, 1, p, k);
    }
  }

  /** `r` is above `x` when it is `x` or one of its children is, but not both. */
  lemma ChildAbove(starts: Starts, r: RunId, cs: seq<RunId>, x: RunId)
    requires !OnCycle(starts, r) && forall c :: c in cs <==> c in starts.named && Parent(starts, c) == Some(r)
    ensures Above(starts, r, x) <==> x == r || SomeAbove(starts, cs, x)
    ensures x == r ==> !SomeAbove(starts, cs, x)
  {
    if k: nat :| Up(starts, x, k) == Some(r) {
      if k > 0 {
        assert Up(starts, x, k - 1).value in cs && Above(starts, Up(starts, x, k - 1).value, x);
      }
    }
    if c :| c in cs && Above(starts, c, x) {
      var k: nat :| Up(starts, x, k) == Some(c);
      assert Up(starts, x, k + 1) == Some(r);
    }
    assert Up(starts, r, 0) == Some(r);
  }

  lemma {:induction false} OccursOnceInForest(starts: Starts, rs: seq<RunId>, visiting: set<RunId>, x: RunId)
    requires Valid(starts) && !HasCycle(starts) && Distinct(rs) && OneAbove(starts, rs, x)
    requires forall c :: c in rs ==> c in starts.named
    requires forall c, v :: c in rs && v in visiting ==> ProperlyAbove(starts, v, c)
    ensures RunsOfAll(ForestOf(starts, rs, visiting))[x] == Once(SomeAbove(starts, rs, x))
    decreases Left(starts, visiting), 1 + |rs|
  {
    if rs != [] {
      assert rs == [rs[0]] + rs[1..];
      OccursOnceBelow(starts, rs[0], visiting, x);
      OccursOnceInForest(starts, rs[1..], visiting, x);
    }
  }

  /** The runs that name `p` as their parent, where `p` has started. */
  function HasParent(starts: Starts, p: RunId): RunId -> bool {
    (r: RunId) => r in starts.named && starts.named[r] == Some(p) && p in starts.named
  }

  /** The runs that name no parent, or one that has not started. */
  function HasNoParent(starts: Starts): RunId -> bool {
    (r: RunId) => r in starts.named && (starts.named[r].None? || starts.named[r].value !in starts.named)
  }

  /** The runs of some nodes, in order. */
  function Names(nodes: seq<Node>): (runs: seq<RunId>)
    ensures |runs| == |nodes| && forall i :: 0 <= i < |nodes| ==> runs[i] == nodes[i].run
  {
    seq(|nodes|, i requires 0 <= i < |nodes| => nodes[i].run)
  }

  /** The children of each node are exactly the runs it is the parent of, in sorted order. */
  ghost predicate FollowsParents(starts: Starts, n: Node) {
    && IsSelection(starts.order, Names(n.children), HasParent(starts, n.run))
    && forall i :: 0 <= i < |n.children| ==> FollowsParents(starts, n.children[i])
  }

  lemma {:induction false} ChildrenMeaning(starts: Starts, rs: seq<RunId>, p: RunId)
    ensures IsSelection(rs, ChildrenIn(starts, rs, p), HasParent(starts, p))
  {
    if rs != [] {
      ChildrenMeaning(starts, rs[1..], p);
      SelectionInFront(rs, HasParent(starts, p));
    }
  }

  lemma RootsInFront(starts: Starts, rs: seq<RunId>)
    requires rs != []
    ensures RootsIn(starts, rs)
            == if HasNoParent(starts)(rs[0]) then [rs[0]] + RootsIn(starts, rs[1..]) else RootsIn(starts, rs[1..])
  {
  }

  lemma {:induction false} RootsMeaning(starts: Starts, rs: seq<RunId>)
    ensures IsSelection(rs, RootsIn(starts, rs), HasNoParent(starts))
  {
    if rs != [] {
      RootsMeaning(starts, rs[1..]);
      RootsInFront(starts, rs);
      SelectionInFront(rs, HasNoParent(starts));
    }
  }

  lemma {:induction false} TreeFollowsParents(starts: Starts, r: RunId, visiting: set<RunId>)
    requires Valid(starts) && !HasCycle(starts) && r in starts.named
    requires forall v :: v in visiting ==> ProperlyAbove(starts, v, r)
    ensures var t := TreeOf(starts, r, visiting); t.run == r && FollowsParents(starts, t)
    decreases Left(starts, visiting), 0
  {
    assert !OnCycle(starts, r);
    Entering(starts, r, visiting);
    var cs := Children(starts, r);
    ChildrenAreStarted(starts, starts.order, r);
    forall c | c in cs ensures forall v :: v in visiting + {r} ==> ProperlyAbove(starts, v, c) {
      AncestorsAboveChild(starts, r, c, visiting);
    }
    ForestFollowsParents(starts, cs, visiting + {r});
    NodeFollowsParents(starts, r, ForestOf(starts, cs, visiting + {r}));
  }

  lemma NodeFollowsParents(starts: Starts, r: RunId, nodes: seq<Node>)
    requires |nodes| == |Children(starts, r)|
    requires forall i :: 0 <= i < |nodes| ==> nodes[i].run == Children(starts, r)[i] && FollowsParents(starts, nodes[i])
    ensures FollowsParents(starts, Node(r, nodes))
  {
    ChildrenMeaning(starts, starts.order, r);
    assert Names(nodes) == Children(starts, r);
  }

  lemma ForestInFront(starts: Starts, rs: seq<RunId>, visiting: set<RunId>)
    requires rs != []
    ensures ForestOf(starts, rs, visiting) == [TreeOf(starts, rs[0], visiting)] + ForestOf(starts, rs[1..], visiting)
  {
  }

  lemma {:induction false} ForestFollowsParents(starts: Starts, rs: seq<RunId>, visiting: set<RunId>)
    requires Valid(starts) && !HasCycle(starts)
    requires forall c :: c in rs ==> c in starts.named
    requires forall c, v :: c in rs && v in visiting ==> ProperlyAbove(starts, v, c)
    ensures var ts := ForestOf(starts, rs, visiting);
            |ts| == |rs| && forall i :: 0 <= i < |rs| ==> ts[i].run == rs[i] && FollowsParents(starts, ts[i])
    decreases Left(starts, visiting), 1 + |rs|
  {
    if rs != [] {
      assert rs == [rs[0]] + rs[1..];
      TreeFollowsParents(starts, rs[0], visiting);
      ForestFollowsParents(starts, rs[1..], visiting);
      ForestInFront(starts, rs, visiting);
    }
  }

  // ---- The whole tree ----

  lemma {:induction false} SomeRunMeetsItself(starts: Starts, rs: seq<RunId>)
    requires AnyMeetsItself(starts, rs, {})
    ensures HasCycle(starts)
  {
    if MeetsItself(starts, rs[0], {}) {
      MeetingIsCycle(starts, rs[0], {});
    } else {
      SomeRunMeetsItself(starts, rs[1..]);
    }
  }

  /** Only runs at or below `r` occur in its tree. */
  lemma {:induction false} OccurringIsBelow(starts: Starts, r: RunId, visiting: set<RunId>, x: RunId)
    requires x in RunsOf(TreeOf(starts, r, visiting))
    ensures Above(starts, r, x)
    decreases Left(starts, visiting), 0
  {
    if x == r {
      assert Up(starts, x, 0) == Some(r);
    } else {
      Entering(starts, r, visiting);
      var c := OccurringBelowSome(starts, Children(starts, r), visiting + {r}, x);
      ChildrenAreStarted(starts, starts.order, r);
      AboveChild(starts, r, c, x);
    }
  }

  lemma {:induction false} OccurringBelowSome(starts: Starts, rs: seq<RunId>, visiting: set<RunId>, x: RunId)
    returns (c: RunId)
    requires x in RunsOfAll(ForestOf(starts, rs, visiting))
    ensures c in rs && Above(starts, c, x)
    decreases Left(starts, visiting), 1 + |rs|
  {
    if x in RunsOf(TreeOf(starts, rs[0], visiting)) {
      OccurringIsBelow(starts, rs[0], visiting, x);
      c := rs[0];
    } else {
      c := OccurringBelowSome(starts, rs[1..], visiting, x);
    }
  }

  lemma {:induction false} CycleGoesOn(starts: Starts, x: RunId, k: nat, m: nat)
    requires k > 0 && Up(starts, x, k) == Some(x)
    ensures Up(starts, x, m).Some?
    decreases m
  {
    if m > k {
      CycleGoesOn(starts, x, k, m - k);
      UpUp(starts, x, k, x, m - k);
    } else {
      UpPrefix(starts, x, m, k);
    }
  }

  lemma {:induction false} UpPrefix(starts: Starts, x: RunId, i: nat, k: nat)
    requires i <= k && Up(starts, x, k).Some?
    ensures Up(starts, x, i).Some?
  {
    if i < k {
      UpPrefix(starts, x, i, k - 1);
    }
  }

  lemma NoRootAboveCycle(starts: Starts, a: RunId, x: RunId)
    requires IsRoot(starts, a) && OnCycle(starts, x)
    ensures !Above(starts, a, x)
  {
    var k: nat :| k > 0 && Up(starts, x, k) == Some(x);
    forall m: nat ensures Up(starts, x, m) != Some(a) {
      CycleGoesOn(starts, x, k, m + 1);
    }
  }

  lemma OneRootAbove(starts: Starts, a: RunId, b: RunId, x: RunId)
    requires IsRoot(starts, a) && IsRoot(starts, b) && Above(starts, a, x) && Above(starts, b, x)
    ensures a == b
  {
    var i: nat :| Up(starts, x, i) == Some(a);
    var j: nat :| Up(starts, x, j) == Some(b);
    if i < j {
      UpPrefix(starts, x, i + 1, j);
    } else if j < i {
      UpPrefix(starts, x, j + 1, i);
    }
  }

  /** Without cycles the roots' trees hold every started run exactly once. */
  lemma RootsCoverAll(starts: Starts, x: RunId)
    requires Valid(starts) && !HasCycle(starts)
    ensures RunsOfAll(ForestOf(starts, RootsIn(starts, starts.order), {}))[x] == Once(x in starts.named)
  {
    var roots := RootsIn(starts, starts.order);
    RootsAreStarted(starts, starts.order);
    SelectionsDistinct(starts, starts.order, x);
    forall c, d | c in roots && d in roots && Above(starts, c, x) && Above(starts, d, x) ensures c == d {
      OneRootAbove(starts, c, d, x);
    }
    OccursOnceInForest(starts, roots, {}, x);
    if x in starts.named {
      var a := RootAbove(starts, x, {});
      assert a in roots;
    } else {
      forall c | c in roots ensures !Above(starts, c, x) {
        NotStartedHasNoneAbove(starts, c, x);
      }
    }
  }

  lemma NotStartedHasNoneAbove(starts: Starts, c: RunId, x: RunId)
    requires c in starts.named && x !in starts.named
    ensures !Above(starts, c, x)
  {
    if k: nat :| Up(starts, x, k) == Some(c) {
      UpPrefix(starts, x, if k == 0 then 0 else 1, k);
    }
  }

  /** What the first pass has visited. */
  ghost predicate SeenFromRoots(starts: Starts, seen: set<RunId>) {
    forall x :: x in seen <==> x in RunsOfAll(ForestOf(starts, RootsIn(starts, starts.order), {}))
  }

  lemma FlagIsExact(starts: Starts, seen: set<RunId>)
    requires Valid(starts) && SeenFromRoots(starts, seen)
    ensures HasCycle(starts) <==>
              AnyMeetsItself(starts, RootsIn(starts, starts.order), {}) ||
              AnyMeetsItself(starts, Outside(starts.order, seen), {})
  {
    var roots, rest := RootsIn(starts, starts.order), Outside(starts.order, seen);
    if AnyMeetsItself(starts, roots, {}) {
      SomeRunMeetsItself(starts, roots);
    } else if AnyMeetsItself(starts, rest, {}) {
      SomeRunMeetsItself(starts, rest);
    }
    if x :| OnCycle(starts, x) {
      CycleMeetsItself(starts, x);
      CycleIsOutside(starts, seen, x);
      SomeMeetsItself(starts, rest, x, {});
    }
  }

  /** A run on a cycle is left for the second pass. */
  lemma CycleIsOutside(starts: Starts, seen: set<RunId>, x: RunId)
    requires Valid(starts) && SeenFromRoots(starts, seen) && OnCycle(starts, x)
    ensures x in Outside(starts.order, seen)
  {
    OutsideMembers(starts.order, seen);
    CycleMeetsItself(starts, x);
    if x in seen {
      var c := OccurringBelowSome(starts, RootsIn(starts, starts.order), {}, x);
      RootsAreStarted(starts, starts.order);
      NoRootAboveCycle(starts, c, x);
    }
  }

  lemma NothingOutside(starts: Starts, seen: set<RunId>)
    requires Valid(starts) && SeenFromRoots(starts, seen) && !HasCycle(starts)
    ensures Outside(starts.order, seen) == []
  {
    forall x | x in starts.named ensures x in seen {
      RootsCoverAll(starts, x);
    }
    AllSeen(starts.order, seen);
  }

  lemma {:induction false} AllSeen(rs: seq<RunId>, seen: set<RunId>)
    requires forall r :: r in rs ==> r in seen
    ensures Outside(rs, seen) == []
  {
    if rs != [] {
      AllSeen(rs[1..], seen);
    }
  }

  /** Without cycles: every started run once, roots without parents, children under parents. */
  ghost predicate IsFaithful(starts: Starts, roots: seq<Node>) {
    && (forall x :: RunsOfAll(roots)[x] == Once(x in starts.named))
    && IsSelection(starts.order, Names(roots), HasNoParent(starts))
    && forall n :: n in roots ==> FollowsParents(starts, n)
  }

  lemma RootsAreFaithful(starts: Starts)
    requires Valid(starts) && !HasCycle(starts)
    ensures IsFaithful(starts, ForestOf(starts, RootsIn(starts, starts.order), {}))
  {
    forall x { RootsCoverAll(starts, x); }
    RootsAreStarted(starts, starts.order);
    ForestFollowsParents(starts, RootsIn(starts, starts.order), {});
    RootsMeaning(starts, starts.order);
    assert Names(ForestOf(starts, RootsIn(starts, starts.order), {})) == RootsIn(starts, starts.order);
  }

  lemma {:induction false} RunsOfBoth(a: seq<Node>, b: seq<Node>)
    ensures RunsOfAll(a + b) == RunsOfAll(a) + RunsOfAll(b)
  {
    if a == [] {
      assert a + b == b;
    } else {
      assert (a + b)[1..] == a[1..] + b;
      RunsOfBoth(a[1..], b);
    }
  }

  lemma {:induction false} TreesHoldTheirRuns(starts: Starts, rs: seq<RunId>, r: RunId)
    requires r in rs
    ensures r in RunsOfAll(ForestOf(starts, rs, {}))
  {
    if rs[0] != r {
      TreesHoldTheirRuns(starts, rs[1..], r);
    }
  }

  /** With the leftover runs every started run is somewhere, cyclic or not, and nothing else is. */
  lemma EveryRunOccurs(starts: Starts, seen: set<RunId>, r: RunId)
    requires Valid(starts) && SeenFromRoots(starts, seen)
    ensures var roots, rest := RootsIn(starts, starts.order), Outside(starts.order, seen);
            r in RunsOfAll(ForestOf(starts, roots, {}) + ForestOf(starts, rest, {})) <==> r in starts.named
  {
    var roots, rest := RootsIn(starts, starts.order), Outside(starts.order, seen);
    RunsOfBoth(ForestOf(starts, roots, {}), ForestOf(starts, rest, {}));
    RootsAreStarted(starts, starts.order);
    OutsideMembers(starts.order, seen);
    if r in starts.named && r !in seen {
      TreesHoldTheirRuns(starts, rest, r);
    }
    if r in RunsOfAll(ForestOf(starts, roots, {})) {
      OccursOnlyIfStarted(starts, roots, r);
    } else if r in RunsOfAll(ForestOf(starts, rest, {})) {
      OccursOnlyIfStarted(starts, rest, r);
    }
  }

  lemma OccursOnlyIfStarted(starts: Starts, rs: seq<RunId>, r: RunId)
    requires (forall c :: c in rs ==> c in starts.named) && r in RunsOfAll(ForestOf(starts, rs, {}))
    ensures r in starts.named
  {
    var c := OccurringBelowSome(starts, rs, {}, r);
    if r !in starts.named {
      NotStartedHasNoneAbove(starts, c, r);
    }
  }

  /** The runs that occur in none of the trees. */
  function MissingFrom(nodes: seq<Node>): RunId -> bool {
    (r: RunId) => r !in RunsOfAll(nodes)
  }

  /** The first `k` trees are those of the runs without a parent, the others those of the runs left then, each once. */
  ghost predicate AreRootsAndRest(starts: Starts, roots: seq<Node>, k: nat) {
    && k <= |roots| && IsSelection(starts.order, Names(roots[..k]), HasNoParent(starts))
    && IsSelection(starts.order, Names(roots[k..]), MissingFrom(roots[..k]))
  }

  lemma {:induction false} OutsideMeaning(rs: seq<RunId>, seen: set<RunId>, nodes: seq<Node>)
    requires forall r :: r in seen <==> r in RunsOfAll(nodes)
    ensures IsSelection(rs, Outside(rs, seen), MissingFrom(nodes))
  {
    if rs != [] {
      OutsideMeaning(rs[1..], seen, nodes);
      OutsideInFront(rs, seen, nodes);
      SelectionInFront(rs, MissingFrom(nodes));
    }
  }

  lemma OutsideInFront(rs: seq<RunId>, seen: set<RunId>, nodes: seq<Node>)
    requires rs != [] && forall r :: r in seen <==> r in RunsOfAll(nodes)
    ensures Outside(rs, seen)
            == if MissingFrom(nodes)(rs[0]) then [rs[0]] + Outside(rs[1..], seen) else Outside(rs[1..], seen)
  {
  }

  lemma {:induction false} ForestNames(starts: Starts, rs: seq<RunId>)
    ensures Names(ForestOf(starts, rs, {})) == rs
  {
    if rs != [] {
      ForestNames(starts, rs[1..]);
      assert rs == [rs[0]] + rs[1..];
    }
  }

  lemma RootsAndRest(starts: Starts, seen: set<RunId>)
    requires SeenFromRoots(starts, seen)
    ensures var roots := ForestOf(starts, RootsIn(starts, starts.order), {});
            AreRootsAndRest(starts, roots + ForestOf(starts, Outside(starts.order, seen), {}), |roots|)
  {
    var roots, rest := ForestOf(starts, RootsIn(starts, starts.order), {}),
                       ForestOf(starts, Outside(starts.order, seen), {});
    assert (roots + rest)[..|roots|] == roots && (roots + rest)[|roots|..] == rest;
    ForestNames(starts, RootsIn(starts, starts.order));
    ForestNames(starts, Outside(starts.order, seen));
    RootsMeaning(starts, starts.order);
    OutsideMeaning(starts.order, seen, roots);
  }

  /** `_run_tree`. The flag is set exactly when the parent relation has a cycle. */
  method BuildRunTree(starts: Starts) returns (roots: seq<Node>, cycle: bool)
    requires Valid(starts)
    ensures cycle <==> HasCycle(starts)
    ensures !cycle ==> IsFaithful(starts, roots)
    ensures forall r :: r in RunsOfAll(roots) <==> r in starts.named
    ensures exists k :: AreRootsAndRest(starts, roots, k)
  {
    var builder := new Builder();
    RootsAreStarted(starts, starts.order);
    roots := builder.BuildAll(starts, RootsIn(starts, starts.order));
    ghost var seen := builder.visited;
    var rest := Outside(starts.order, builder.visited);
    OutsideMembers(starts.order, builder.visited);
    FlagIsExact(starts, seen);
    var more := builder.BuildAll(starts, rest);
    cycle := builder.cycle;
    if !cycle {
      NothingOutside(starts, seen);
      RootsAreFaithful(starts);
      assert roots + more == roots;
    }
    roots := roots + more;
    RootsAndRest(starts, seen);
    forall r ensures r in RunsOfAll(roots) <==> r in starts.named {
      EveryRunOccurs(starts, seen, r);
    }
  }
}

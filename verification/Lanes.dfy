/**
 * Lanes of the audit graph: a fixed-point loop over the parent relation of runs, which comes from
 * recorded events and may be cyclic or name runs that are missing.
 */
module Lanes {
  import opened Wrappers

  type RunId = string

  datatype Kind = Main | ChildAgent | Continuation | Unknown

  datatype Evidence = Evidence(kind: Kind, parent: Option<RunId>)

  datatype Lane = Lane(order: int, depth: nat)

  /** Started runs in event order, and what the events say about each. */
  datatype Runs = Runs(order: seq<RunId>, evidence: map<RunId, Evidence>)

  ghost predicate Valid(runs: Runs) {
    && (forall r :: r in runs.order <==> r in runs.evidence)
    && (forall i, j :: 0 <= i < j < |runs.order| ==> runs.order[i] != runs.order[j])
    && (forall r :: r in runs.evidence && runs.evidence[r].kind.Main? ==> runs.evidence[r].parent.None?)
  }

  /** The parent's id when the parent itself has started. */
  function Parent(runs: Runs, r: RunId): (p: Option<RunId>)
    requires r in runs.evidence
    ensures p.Some? ==> p.value in runs.evidence
  {
    var p := runs.evidence[r].parent;
    if p.Some? && p.value in runs.evidence then p else None
  }

  function Abs(n: int): nat {
    if n < 0 then -n else n
  }

  /** Child agents of `p` among the first `n` runs. */
  function ChildrenUpTo(runs: Runs, p: RunId, n: nat): seq<RunId>
    requires n <= |runs.order|
  {
    if n == 0 then []
    else
      var r := runs.order[n - 1];
      ChildrenUpTo(runs, p, n - 1)
      + if r in runs.evidence && runs.evidence[r] == Evidence(ChildAgent, Some(p)) then [r] else []
  }

  function Children(runs: Runs, p: RunId): seq<RunId> {
    ChildrenUpTo(runs, p, |runs.order|)
  }

  function IndexOf(s: seq<RunId>, r: RunId): (i: nat)
    ensures r in s ==> i < |s| && s[i] == r
  {
    if s == [] || s[0] == r then 0 else 1 + IndexOf(s[1..], r)
  }

  /** Siblings fan out to the left and right of the centre in turn: -1, 1, -2, 2, ... */
  function FanOut(index: nat): int {
    var ordinal := index / 2 + 1;
    if index % 2 == 0 then -ordinal else ordinal
  }

  /** The lane of a run that needs no unresolved parent, given its parent's lane if it has one. */
  function LaneBeside(runs: Runs, r: RunId, parentLane: Option<int>): int
    requires r in runs.evidence
  {
    match runs.evidence[r].kind
    case Main => 0
    case ChildAgent =>
      if parentLane.Some? && parentLane.value != 0
      then (if parentLane.value < 0 then -1 else 1) * (Abs(parentLane.value) + 1)
      else if Parent(runs, r).Some? then FanOut(IndexOf(Children(runs, Parent(runs, r).value), r)) else 1
    case Continuation => if parentLane.Some? && parentLane.value != 0 then parentLane.value else 1
    case Unknown =>
      var direction := if parentLane.Some? && parentLane.value < 0 then -1 else 1;
      direction * ((if parentLane.Some? then Abs(parentLane.value) else 0) + 1)
  }

  // ---- The lanes, without the loop ----

  /** Following parents from `r` ends within `k` steps at a run that needs none. */
  predicate ResolvesWithin(runs: Runs, r: RunId, k: nat)
    requires r in runs.evidence
    decreases k
  {
    && k > 0
    && (runs.evidence[r].kind.Main? ||
        match Parent(runs, r)
        case None => !runs.evidence[r].kind.ChildAgent?
        case Some(p) => ResolvesWithin(runs, p, k - 1))
  }

  ghost predicate Resolves(runs: Runs, r: RunId)
    requires r in runs.evidence
  {
    exists k: nat :: ResolvesWithin(runs, r, k)
  }

  function LaneWithin(runs: Runs, r: RunId, k: nat): int
    requires r in runs.evidence && ResolvesWithin(runs, r, k)
    decreases k
  {
    if runs.evidence[r].kind.Main? then 0
    else
      match Parent(runs, r)
      case None => LaneBeside(runs, r, None)
      case Some(p) => LaneBeside(runs, r, Some(LaneWithin(runs, p, k - 1)))
  }

  lemma {:induction false} ResolvesLonger(runs: Runs, r: RunId, k: nat, l: nat)
    requires r in runs.evidence && ResolvesWithin(runs, r, k) && k <= l
    ensures ResolvesWithin(runs, r, l) && LaneWithin(runs, r, l) == LaneWithin(runs, r, k)
    decreases k
  {
    if !runs.evidence[r].kind.Main? && Parent(runs, r).Some? {
      ResolvesLonger(runs, Parent(runs, r).value, k - 1, l - 1);
    }
  }

  /** The lane every run should get: 1 for those whose parents lead nowhere. */
  ghost function LaneOf(runs: Runs, r: RunId): int
    requires r in runs.evidence
  {
    if Resolves(runs, r) then
      var k: nat :| ResolvesWithin(runs, r, k);
      LaneWithin(runs, r, k)
    else 1
  }

  lemma LaneOfWithin(runs: Runs, r: RunId, k: nat)
    requires r in runs.evidence && ResolvesWithin(runs, r, k)
    ensures LaneOf(runs, r) == LaneWithin(runs, r, k)
  {
    assert Resolves(runs, r);
    var l: nat :| ResolvesWithin(runs, r, l) && LaneOf(runs, r) == LaneWithin(runs, r, l);
    var longer := if k < l then l else k;
    ResolvesLonger(runs, r, k, longer);
    ResolvesLonger(runs, r, l, longer);
  }

  /** A resolved run is placed beside its parent's lane. */
  lemma LaneOfFollowsParent(runs: Runs, r: RunId)
    requires Valid(runs) && r in runs.evidence && Resolves(runs, r)
    ensures Parent(runs, r).None? ==> LaneOf(runs, r) == LaneBeside(runs, r, None)
    ensures Parent(runs, r).Some? ==>
              Resolves(runs, Parent(runs, r).value)
              && LaneOf(runs, r) == LaneBeside(runs, r, Some(LaneOf(runs, Parent(runs, r).value)))
  {
    var k: nat :| ResolvesWithin(runs, r, k);
    LaneOfWithin(runs, r, k);
    if Parent(runs, r).Some? {
      var p := Parent(runs, r).value;
      LaneOfWithin(runs, p, k - 1);
    }
  }

  // ---- The loop ----

  /** A run the loop passes over while `unresolved` still holds what it waits for. */
  predicate IsBlocked(runs: Runs, r: RunId, unresolved: set<RunId>)
    requires r in runs.evidence
  {
    && !runs.evidence[r].kind.Main?
    && match Parent(runs, r)
       case None => runs.evidence[r].kind.ChildAgent?
       case Some(p) => p in unresolved
  }

  lemma {:induction false} BlockedNeverResolve(runs: Runs, unresolved: set<RunId>, r: RunId, k: nat)
    requires unresolved <= runs.evidence.Keys && r in unresolved
    requires forall u :: u in unresolved ==> IsBlocked(runs, u, unresolved)
    ensures !ResolvesWithin(runs, r, k)
    decreases k
  {
    assert IsBlocked(runs, r, unresolved);
    if k > 0 && Parent(runs, r).Some? {
      BlockedNeverResolve(runs, unresolved, Parent(runs, r).value, k - 1);
    }
  }

  lemma UnblockedResolves(runs: Runs, r: RunId, unresolved: set<RunId>)
    requires Valid(runs) && r in runs.evidence && !IsBlocked(runs, r, unresolved)
    requires forall p :: p in runs.evidence && p !in unresolved ==> Resolves(runs, p)
    ensures Resolves(runs, r)
  {
    if runs.evidence[r].kind.Main? || Parent(runs, r).None? {
      assert ResolvesWithin(runs, r, 1);
    } else {
      var k: nat :| ResolvesWithin(runs, Parent(runs, r).value, k);
      assert ResolvesWithin(runs, r, k + 1);
    }
  }

  /** The first run in event order that waits for nothing, if there is one. */
  method FirstUnblocked(runs: Runs, unresolved: set<RunId>) returns (found: Option<RunId>)
    requires Valid(runs) && unresolved <= runs.evidence.Keys
    ensures found.Some? ==> found.value in unresolved && !IsBlocked(runs, found.value, unresolved)
    ensures found.None? ==> forall r :: r in unresolved ==> IsBlocked(runs, r, unresolved)
  {
    for i := 0 to |runs.order|
      invariant forall j :: 0 <= j < i && runs.order[j] in unresolved ==> IsBlocked(runs, runs.order[j], unresolved)
    {
      var r := runs.order[i];
      if r in unresolved && !IsBlocked(runs, r, unresolved) {
        return Some(r);
      }
    }
    return None;
  }

  /** The runs that are no longer unresolved have their reference lanes. */
  ghost predicate AreAssigned(runs: Runs, lanes: map<RunId, Lane>, unresolved: set<RunId>) {
    && lanes.Keys == runs.evidence.Keys
    && forall r :: r in lanes && r !in unresolved ==> HasLane(runs, lanes, r)
  }

  ghost predicate HasLane(runs: Runs, lanes: map<RunId, Lane>, r: RunId)
    requires r in lanes && r in runs.evidence
  {
    Resolves(runs, r) && lanes[r] == Lane(LaneOf(runs, r), Abs(LaneOf(runs, r)))
  }

  lemma BlockedLieOnOne(runs: Runs, unresolved: set<RunId>)
    requires unresolved <= runs.evidence.Keys && forall u :: u in unresolved ==> IsBlocked(runs, u, unresolved)
    ensures forall r :: r in unresolved ==> LaneOf(runs, r) == 1
  {
    forall r | r in unresolved ensures LaneOf(runs, r) == 1 {
      forall k: nat ensures !ResolvesWithin(runs, r, k) {
        BlockedNeverResolve(runs, unresolved, r, k);
      }
    }
  }

  /** A run that waits for none of the unresolved ones has its reference lane beside its parent's. */
  lemma UnblockedIsKnown(runs: Runs, lanes: map<RunId, Lane>, unresolved: set<RunId>, r: RunId)
    requires Valid(runs) && AreAssigned(runs, lanes, unresolved) && r in unresolved && r in runs.evidence
    requires !IsBlocked(runs, r, unresolved)
    ensures Resolves(runs, r) && (Parent(runs, r).Some? ==> Parent(runs, r).value in lanes)
    ensures LaneOf(runs, r)
            == LaneBeside(runs, r, if Parent(runs, r).Some? then Some(lanes[Parent(runs, r).value].order) else None)
  {
    forall p | p in runs.evidence && p !in unresolved ensures Resolves(runs, p) {
      assert HasLane(runs, lanes, p);
    }
    UnblockedResolves(runs, r, unresolved);
    LaneOfFollowsParent(runs, r);
  }

  lemma OneMoreAssigned(runs: Runs, lanes: map<RunId, Lane>, unresolved: set<RunId>, r: RunId, lane: int)
    requires AreAssigned(runs, lanes, unresolved) && r in runs.evidence && Resolves(runs, r) && lane == LaneOf(runs, r)
    ensures AreAssigned(runs, lanes[r := Lane(lane, Abs(lane))], unresolved - {r})
  {
    var after := lanes[r := Lane(lane, Abs(lane))];
    forall u | u in after && u !in unresolved - {r} ensures HasLane(runs, after, u) {
      assert u != r ==> HasLane(runs, lanes, u);
    }
  }

  /** The lane loop. It ends on any parent relation and gives every started run its lane. */
  method AssignLanes(runs: Runs) returns (lanes: map<RunId, Lane>)
    requires Valid(runs)
    ensures lanes.Keys == runs.evidence.Keys
    ensures forall r :: r in lanes ==> lanes[r] == Lane(LaneOf(runs, r), Abs(LaneOf(runs, r)))
  {
    lanes := map r | r in runs.evidence :: Lane(0, 0);
    var unresolved := runs.evidence.Keys;
    while unresolved != {}
      invariant unresolved <= runs.evidence.Keys == lanes.Keys
      invariant AreAssigned(runs, lanes, unresolved)
      decreases unresolved
    {
      var found := FirstUnblocked(runs, unresolved);
      if found.None? {
        BlockedLieOnOne(runs, unresolved);
        lanes := map r | r in lanes :: if r in unresolved then Lane(1, 1) else lanes[r];
        break;
      }
      var r := found.value;
      UnblockedIsKnown(runs, lanes, unresolved, r);
      var parent := Parent(runs, r);
      var lane := LaneBeside(runs, r, if parent.Some? then Some(lanes[parent.value].order) else None);
      OneMoreAssigned(runs, lanes, unresolved, r, lane);
      lanes := lanes[r := Lane(lane, Abs(lane))];
      unresolved := unresolved - {r};
    }
  }

  // ---- What the lanes show ----

  /** The run's parent, which has started itself. */
  predicate IsUnder(runs: Runs, r: RunId, p: RunId) {
    r in runs.evidence && runs.evidence[r].parent == Some(p) && p in runs.evidence
  }

  /** A run resolves if it is a main run, needs no parent, or has one that resolves. */
  lemma ResolvesMeaning(runs: Runs, r: RunId)
    requires r in runs.evidence
    ensures Resolves(runs, r) <==>
              || runs.evidence[r].kind.Main?
              || (exists p :: IsUnder(runs, r, p) && Resolves(runs, p))
              || (!runs.evidence[r].kind.ChildAgent? && forall p :: !IsUnder(runs, r, p))
  {
    var e := runs.evidence[r];
    if e.parent.Some? && e.parent.value in runs.evidence {
      assert IsUnder(runs, r, e.parent.value);
    }
    if Resolves(runs, r) {
      var k: nat :| ResolvesWithin(runs, r, k);
      if Parent(runs, r).Some? && !e.kind.Main? {
        assert ResolvesWithin(runs, Parent(runs, r).value, k - 1);
      }
    } else {
      assert !ResolvesWithin(runs, r, 1);
      if p :| IsUnder(runs, r, p) && Resolves(runs, p) {
        var k: nat :| ResolvesWithin(runs, p, k);
        assert ResolvesWithin(runs, r, k + 1);
      }
    }
  }

  function IsChildAgentOf(runs: Runs, p: RunId): RunId -> bool {
    (r: RunId) => r in runs.evidence && runs.evidence[r] == Evidence(ChildAgent, Some(p))
  }

  /** `cs` are the child agents of `p` in the order in which they started, and `r` is the `n`-th of them. */
  ghost predicate IsNthChild(runs: Runs, p: RunId, cs: seq<RunId>, n: nat, r: RunId) {
    IsSelection(runs.order, cs, IsChildAgentOf(runs, p)) && n < |cs| && cs[n] == r
  }

  lemma ChildStep(runs: Runs, p: RunId, n: nat)
    requires n < |runs.order|
    ensures ChildrenUpTo(runs, p, n + 1)
            == if IsChildAgentOf(runs, p)(runs.order[n]) then ChildrenUpTo(runs, p, n) + [runs.order[n]]
               else ChildrenUpTo(runs, p, n)
    ensures runs.order[..n + 1] == runs.order[..n] + [runs.order[n]]
  {
  }

  lemma {:induction false} ChildrenMeaning(runs: Runs, p: RunId, n: nat)
    requires n <= |runs.order|
    ensures IsSelection(runs.order[..n], ChildrenUpTo(runs, p, n), IsChildAgentOf(runs, p))
  {
    if n == 0 {
      assert runs.order[..0] == [];
    } else {
      ChildrenMeaning(runs, p, n - 1);
      ChildStep(runs, p, n - 1);
      SelectionStep(runs.order[..n - 1], ChildrenUpTo(runs, p, n - 1), IsChildAgentOf(runs, p), runs.order[n - 1]);
    }
  }

  /**
   * The lane of a run by its kind and its parent's lane: main runs in the centre; child agents of a run
   * there to the left and the right in turn, the first to the left; child agents of other runs one further
   * out; continuations beside their parent; runs of no known kind one further out, to the right of the centre.
   */
  lemma LaneMeaning(runs: Runs, r: RunId)
    requires Valid(runs) && r in runs.evidence && Resolves(runs, r)
    ensures var kind, lane := runs.evidence[r].kind, LaneOf(runs, r);
            && (kind.Main? ==> lane == 0)
            && ((forall p :: !IsUnder(runs, r, p)) && kind in {Continuation, Unknown} ==> lane == 1)
            && forall p :: IsUnder(runs, r, p) ==>
                 var above := LaneOf(runs, p);
                 && (kind.Continuation? ==> lane == if above == 0 then 1 else above)
                 && (kind.Unknown? || (kind.ChildAgent? && above != 0) ==>
                       lane == if above < 0 then above - 1 else above + 1)
                 && (kind.ChildAgent? && above == 0 ==>
                       exists cs, n: nat :: IsNthChild(runs, p, cs, n, r)
                         && lane == if n % 2 == 0 then -(n / 2) - 1 else n / 2 + 1)
  {
    LaneOfFollowsParent(runs, r);
    var e := runs.evidence[r];
    if e.parent.Some? && e.parent.value in runs.evidence {
      assert IsUnder(runs, r, e.parent.value);
      if e.kind.ChildAgent? {
        IsChildOf(runs, r, e.parent.value);
      }
    }
  }

  lemma IsChildOf(runs: Runs, r: RunId, p: RunId)
    requires Valid(runs) && r in runs.evidence && runs.evidence[r] == Evidence(ChildAgent, Some(p))
    ensures IsNthChild(runs, p, Children(runs, p), IndexOf(Children(runs, p), r), r)
  {
    ChildrenMeaning(runs, p, |runs.order|);
    assert runs.order[..|runs.order|] == runs.order;
    SelectionMembers(runs.order, IsChildAgentOf(runs, p), r);
  }

  /** The centre lane holds exactly the main runs. */
  lemma CentreIsMain(runs: Runs, r: RunId)
    requires Valid(runs) && r in runs.evidence
    ensures LaneOf(runs, r) == 0 <==> runs.evidence[r].kind.Main?
  {
    assert runs.evidence[r].kind.Main? ==> ResolvesWithin(runs, r, 1);
    if Resolves(runs, r) {
      LaneOfFollowsParent(runs, r);
    }
  }

  /** A run under a parent off the centre is on the parent's side and at least as deep. */
  lemma SameSideAsParent(runs: Runs, r: RunId)
    requires Valid(runs) && r in runs.evidence && Parent(runs, r).Some?
    ensures var p, lane := LaneOf(runs, Parent(runs, r).value), LaneOf(runs, r);
            p != 0 ==> (p < 0 <==> lane < 0) && Abs(lane) >= Abs(p)
  {
    var p := Parent(runs, r).value;
    if Resolves(runs, r) {
      LaneOfFollowsParent(runs, r);
    } else if k: nat :| ResolvesWithin(runs, p, k) {
      assert ResolvesWithin(runs, r, k + 1);
    }
  }

  lemma {:induction false} ChildrenMembers(runs: Runs, p: RunId, n: nat, r: RunId)
    requires Valid(runs) && n <= |runs.order|
    ensures r in ChildrenUpTo(runs, p, n) <==>
              r in runs.order[..n] && runs.evidence[r] == Evidence(ChildAgent, Some(p))
  {
    if n > 0 {
      ChildrenMembers(runs, p, n - 1, r);
      assert runs.order[..n] == runs.order[..n - 1] + [runs.order[n - 1]];
      assert runs.order[n - 1] in runs.order;
    }
  }

  /** Child agents of one centre run never share a lane. */
  lemma SiblingsApart(runs: Runs, r: RunId, s: RunId, p: RunId)
    requires Valid(runs) && r in runs.evidence && s in runs.evidence && r != s
    requires runs.evidence[r] == Evidence(ChildAgent, Some(p)) == runs.evidence[s]
    requires p in runs.evidence && LaneOf(runs, p) == 0
    ensures LaneOf(runs, r) != LaneOf(runs, s)
  {
    CentreIsMain(runs, p);
    assert ResolvesWithin(runs, r, 2) && ResolvesWithin(runs, s, 2);
    LaneOfFollowsParent(runs, r);
    LaneOfFollowsParent(runs, s);
    ChildrenMembers(runs, p, |runs.order|, r);
    ChildrenMembers(runs, p, |runs.order|, s);
    assert runs.order[..|runs.order|] == runs.order;
    var cs := Children(runs, p);
    FanOutInjective(IndexOf(cs, r), IndexOf(cs, s));
  }

  lemma FanOutInjective(i: nat, j: nat)
    requires i != j
    ensures FanOut(i) != FanOut(j)
  {
  }

  /** A run is left on lane 1 as unresolved when its parents form a cycle. */
  lemma {:induction false} CycleIsUnresolved(runs: Runs, cycle: set<RunId>, r: RunId)
    requires cycle <= runs.evidence.Keys && r in cycle
    requires forall u :: u in cycle ==>
               !runs.evidence[u].kind.Main? && Parent(runs, u).Some? && Parent(runs, u).value in cycle
    ensures !Resolves(runs, r) && LaneOf(runs, r) == 1
  {
    forall k: nat ensures !ResolvesWithin(runs, r, k) {
      BlockedNeverResolve(runs, cycle, r, k);
    }
  }
}

/** The graph of a trace by its turns: one node for each run, in the region of the turn it began in. */
module TurnGraph {
  import opened Partition
  import opened Wrappers
  import opened TraceGraph
  import Regions

  type Turns = Regions.Members<string, Node>
  type InTurn = Regions.Node<Node, string>

  function TurnOf(e: Event): string {
    if e.turn == "" then "unscoped" else e.turn
  }

  /** The event is the first of its run. */
  ghost predicate IsFirstOfRun(events: seq<Event>, e: Event) {
    e.run != "" && exists k :: 0 <= k < |events| && events[k] == e && forall j :: 0 <= j < k ==> events[j].run != e.run
  }

  /** The node of the run that the event opens, in the event's turn. */
  function NodeAt(e: Event): InTurn {
    Regions.Node(RunNode(e.run), TurnOf(e))
  }

  predicate IsNodeAt(n: InTurn, e: Event) {
    n.id == RunNode(e.run) && n.region == if e.turn == "" then "unscoped" else e.turn
  }

  /** A node for each run, named by the first event of it; each turn is a region. */
  ghost predicate IsTurnLayout(events: seq<Event>, members: Turns, nodes: seq<InTurn>) {
    && Regions.IsPlaced(members, nodes)
    && (forall n :: n in nodes <==> exists e :: e in events && IsFirstOfRun(events, e) && IsNodeAt(n, e))
    && forall r :: r in members <==> exists e :: e in events && r == if e.turn == "" then "unscoped" else e.turn
  }

  /** Events with a run are owned by its node, the others are ignored. */
  ghost predicate IsTurnPartition(events: seq<Event>, owners: Owners, ignored: seq<string>) {
    forall e :: e in events ==>
                  if e.run != "" then e.id in owners && owners[e.id] == RunNode(e.run) && e.id !in ignored
                  else e.id !in owners && e.id in ignored
  }

  function ByRun(events: seq<Event>, run: string): (grouped: seq<Event>)
    ensures forall e :: e in grouped <==> e in events && e.run == run
  {
    Pick((e: Event) => e.run == run, events)
  }

  /** The event that opens a run's group is the run's first. */
  lemma {:induction false} OpensWithFirst(events: seq<Event>, run: string)
    requires run != "" && ByRun(events, run) != []
    ensures ByRun(events, run)[0] in events && IsFirstOfRun(events, ByRun(events, run)[0])
  {
    var n := |events| - 1;
    assert events == events[..n] + [events[n]];
    assert ByRun(events, run)[0] in ByRun(events, run);
    if ByRun(events[..n], run) == [] {
      RunIsMet(events[..n], run);
      assert ByRun(events, run)[0] == events[n];
      assert forall j :: 0 <= j < n ==> events[j] in events[..n];
    } else {
      OpensWithFirst(events[..n], run);
      var e := ByRun(events[..n], run)[0];
      var k :| 0 <= k < n && events[..n][k] == e && forall j :: 0 <= j < k ==> events[..n][j].run != e.run;
      assert events[k] == e && forall j :: 0 <= j < k ==> events[..n][j] == events[j];
      assert ByRun(events, run)[0] == e;
    }
  }

  lemma FirstIsOpening(events: seq<Event>, e: Event)
    requires e in events && IsFirstOfRun(events, e)
    ensures ByRun(events, e.run) != [] && ByRun(events, e.run)[0] == e
  {
    assert e in ByRun(events, e.run);
    OpensWithFirst(events, e.run);
    var f := ByRun(events, e.run)[0];
    assert f in ByRun(events, e.run);
    var k :| 0 <= k < |events| && events[k] == e && forall j :: 0 <= j < k ==> events[j].run != e.run;
    var l :| 0 <= l < |events| && events[l] == f && forall j :: 0 <= j < l ==> events[j].run != f.run;
    assert k == l;
  }

  /** The run opens in one of the turns. */
  ghost predicate OpensIn(events: seq<Event>, run: string, turns: seq<string>) {
    run != "" && ByRun(events, run) != [] && TurnOf(ByRun(events, run)[0]) in turns
  }

  /** The owners once the runs in `done` have joined. */
  ghost predicate RunsJoined(events: seq<Event>, done: set<string>, owners: Owners) {
    && (forall e :: e in events && e.run in done ==> e.id in owners && owners[e.id] == RunNode(e.run))
    && forall id :: id in owners ==> exists e :: e in events && e.run in done && e.id == id
  }

  lemma RunJoins(events: seq<Event>, done: set<string>, owners: Owners, run: string, grown: Owners)
    requires RunsJoined(events, done, owners) && Grew(owners, grown, ByRun(events, run), RunNode(run))
    ensures RunsJoined(events, done + {run}, grown)
  {
    forall e | e in events && e.run in done + {run} ensures e.id in grown && grown[e.id] == RunNode(e.run) {
      if e.run == run {
        assert e in ByRun(events, run);
      }
    }
    forall id | id in grown ensures exists e :: e in events && e.run in done + {run} && e.id == id {
      if id in owners {
        var e :| e in events && e.run in done && e.id == id;
      } else {
        var e :| e in ByRun(events, run) && e.id == id;
      }
    }
  }

  lemma NewRunIsFree(events: seq<Event>, done: set<string>, owners: Owners, run: string)
    requires Unique(events) && RunsJoined(events, done, owners) && run !in done
    ensures forall e :: e in ByRun(events, run) ==> e.id !in owners
  {
    forall e | e in ByRun(events, run) && e.id in owners ensures false {
      var f :| f in events && f.run in done && f.id == e.id;
      SameIdSameEvent(events, e, f);
    }
  }

  /** Of the runs met, those that open in the turn have joined. */
  ghost predicate IsTurnSoFar(events: seq<Event>, met: seq<string>, turn: string, done: set<string>, now: set<string>,
    ids: seq<Node>)
  {
    && (forall run :: run in now <==> run in done || (run in met && OpensIn(events, run, [turn])))
    && forall id :: id in ids <==> id.RunNode? && id.run in met && OpensIn(events, id.run, [turn])
  }

  lemma TurnGrows(events: seq<Event>, met: seq<string>, turn: string, done: set<string>, now: set<string>,
    ids: seq<Node>, run: string)
    requires IsTurnSoFar(events, met, turn, done, now, ids)
    ensures if OpensIn(events, run, [turn])
            then IsTurnSoFar(events, met + [run], turn, done, now + {run}, ids + [RunNode(run)])
            else IsTurnSoFar(events, met + [run], turn, done, now, ids)
  {
  }

  /** The turn's own nodes: those of the runs that open in it. */
  method OneTurn(events: seq<Event>, runs: seq<string>, turn: string, ghost done: set<string>, owners: Owners)
    returns (grown: Option<Owners>, ids: seq<Node>, ghost now: set<string>)
    requires Unique(events) && RunsJoined(events, done, owners)
    requires forall i, j :: 0 <= i < j < |runs| ==> runs[i] != runs[j]
    requires forall run :: run in runs ==> run != "" && ByRun(events, run) != []
    requires forall run :: run in runs && run in done ==> TurnOf(ByRun(events, run)[0]) != turn
    ensures grown.Some? && RunsJoined(events, now, grown.value)
    ensures forall run :: run in now <==> run in done || (run in runs && OpensIn(events, run, [turn]))
    ensures forall id :: id in ids <==> id.RunNode? && id.run in runs && OpensIn(events, id.run, [turn])
  {
    var owned := owners;
    ids, now := [], done;
    for k := 0 to |runs|
      invariant RunsJoined(events, now, owned) && IsTurnSoFar(events, runs[..k], turn, done, now, ids)
    {
      assert runs[..k + 1] == runs[..k] + [runs[k]] && runs[k] !in runs[..k] && runs[k] in runs;
      TurnGrows(events, runs[..k], turn, done, now, ids, runs[k]);
      var grouped := ByRun(events, runs[k]);
      if TurnOf(grouped[0]) != turn {
        continue;
      }
      PickIsUnique((e: Event) => e.run == runs[k], events);
      NewRunIsFree(events, now, owned, runs[k]);
      var added := Add(owned, grouped, RunNode(runs[k]));
      RunJoins(events, now, owned, runs[k], added.value);
      owned, ids, now := added.value, ids + [RunNode(runs[k])], now + {runs[k]};
    }
    assert runs[..|runs|] == runs;
    grown := Some(owned);
  }

  /** The nodes of the turns so far, each in the turn its run opens in. */
  ghost predicate TurnsPlaced(events: seq<Event>, turns: seq<string>, members: Turns, nodes: seq<InTurn>) {
    && Regions.IsPlaced(members, nodes)
    && (forall n :: n in nodes <==>
           n.id.RunNode? && OpensIn(events, n.id.run, turns) && n.region == TurnOf(ByRun(events, n.id.run)[0]))
    && forall r :: r in members <==> r in turns
  }

  function InOneTurn(ids: seq<Node>, turn: string): (nodes: seq<InTurn>)
    ensures |nodes| == |ids| && forall i :: 0 <= i < |ids| ==> nodes[i] == Regions.Node(ids[i], turn)
    ensures forall n :: n in nodes <==> n.region == turn && n.id in ids
  {
    var nodes := seq(|ids|, i requires 0 <= i < |ids| => Regions.Node(ids[i], turn));
    assert forall n: InTurn :: n.region == turn && n.id in ids ==>
        exists i :: 0 <= i < |ids| && ids[i] == n.id && nodes[i] == n;
    nodes
  }

  lemma TurnJoins(events: seq<Event>, turns: seq<string>, members: Turns, nodes: seq<InTurn>, turn: string,
    ids: seq<Node>)
    requires TurnsPlaced(events, turns, members, nodes) && turn !in turns
    requires forall id :: id in ids <==> id.RunNode? && OpensIn(events, id.run, [turn])
    ensures TurnsPlaced(events, turns + [turn], members[turn := ids], nodes + InOneTurn(ids, turn))
  {
    Regions.PlacingKeeps(members, nodes, turn, InOneTurn(ids, turn), ids);
    assert Regions.MembersOf(members, turn) + ids == ids;
  }

  lemma LayoutOfTurns(events: seq<Event>, turns: seq<string>, members: Turns, nodes: seq<InTurn>)
    requires TurnsPlaced(events, turns, members, nodes)
    requires forall r :: r in turns <==> exists e :: e in events && TurnOf(e) == r
    ensures IsTurnLayout(events, members, nodes)
  {
    forall n | n in nodes ensures exists e :: e in events && IsFirstOfRun(events, e) && IsNodeAt(n, e) {
      OpensWithFirst(events, n.id.run);
      var e := ByRun(events, n.id.run)[0];
      assert e in ByRun(events, n.id.run) && IsNodeAt(n, e);
    }
    forall e | e in events && IsFirstOfRun(events, e) ensures NodeAt(e) in nodes {
      FirstIsOpening(events, e);
    }
  }

  /** The events without a run, in order. */
  function Unowned(events: seq<Event>): seq<string> {
    IdsOf(ByRun(events, ""))
  }

  /**
   * `_trace_nodes`: it never raises. Events with a run are owned by its node, the others ignored,
   * and each run's node lies in the turn of the run's first event and in no other.
   */
  method TraceNodes(events: seq<Event>)
    returns (owners: Option<Owners>, ignored: seq<string>, members: Turns, nodes: seq<InTurn>)
    requires Unique(events)
    ensures owners.Some? && IsTurnPartition(events, owners.value, ignored)
    ensures IsTurnLayout(events, members, nodes)
  {
    var runs := DistinctKeys((e: Event) => e.run, events);
    var turns := DistinctKeys(TurnOf, events);
    ignored := Unowned(events);
    RunsAreMet(events, runs);
    var owned;
    ghost var done;
    owned, members, nodes, done := PlaceTurns(events, runs, turns);
    LayoutOfTurns(events, turns, members, nodes);
    EveryRunOpens(events, turns, done);
    PartitionOfTurns(events, done, owned);
    owners := Some(owned);
  }

  /** The loop over the turns: each run joins in the turn it opens in. */
  method PlaceTurns(events: seq<Event>, runs: seq<string>, turns: seq<string>)
    returns (owned: Owners, members: Turns, nodes: seq<InTurn>, ghost done: set<string>)
    requires Unique(events) && Distinct(turns) && Distinct(runs)
    requires forall run :: run in runs <==> run != "" && ByRun(events, run) != []
    ensures RunsJoined(events, done, owned) && AreOpened(events, turns, done)
    ensures TurnsPlaced(events, turns, members, nodes)
  {
    owned, members, nodes, done := map[], map[], [], {};
    for t := 0 to |turns|
      invariant RunsJoined(events, done, owned) && AreOpened(events, turns[..t], done)
      invariant TurnsPlaced(events, turns[..t], members, nodes)
    {
      assert turns[..t + 1] == turns[..t] + [turns[t]] && turns[t] !in turns[..t];
      var grown, ids, now := OneTurn(events, runs, turns[t], done, owned);
      TurnOpens(events, turns[..t], turns[t], runs, done, now);
      TurnJoins(events, turns[..t], members, nodes, turns[t], ids);
      members, nodes := members[turns[t] := ids], nodes + InOneTurn(ids, turns[t]);
      owned, done := grown.value, now;
    }
    assert turns[..|turns|] == turns;
  }

  /** The runs that open in one of the turns. */
  ghost predicate AreOpened(events: seq<Event>, turns: seq<string>, done: set<string>) {
    forall run :: run in done <==> OpensIn(events, run, turns)
  }

  lemma TurnOpens(events: seq<Event>, turns: seq<string>, turn: string, runs: seq<string>, done: set<string>,
    now: set<string>)
    requires AreOpened(events, turns, done) && forall run :: run in runs <==> run != "" && ByRun(events, run) != []
    requires forall run :: run in now <==> run in done || (run in runs && OpensIn(events, run, [turn]))
    ensures AreOpened(events, turns + [turn], now)
  {
  }

  lemma RunsAreMet(events: seq<Event>, runs: seq<string>)
    requires forall run :: run in runs <==> run != "" && exists e :: e in events && e.run == run
    ensures forall run :: run in runs <==> run != "" && ByRun(events, run) != []
  {
    forall run ensures run in runs <==> run != "" && ByRun(events, run) != [] {
      RunIsMet(events, run);
    }
  }

  lemma EveryRunOpens(events: seq<Event>, turns: seq<string>, done: set<string>)
    requires forall r :: r in turns <==> exists e :: e in events && TurnOf(e) == r
    requires AreOpened(events, turns, done)
    ensures "" !in done && forall e :: e in events && e.run != "" ==> e.run in done
  {
    forall e | e in events && e.run != "" ensures e.run in done {
      assert e in ByRun(events, e.run);
      assert ByRun(events, e.run)[0] in ByRun(events, e.run);
    }
  }

  lemma RunIsMet(events: seq<Event>, run: string)
    ensures (exists e :: e in events && e.run == run) <==> ByRun(events, run) != []
  {
    if ByRun(events, run) != [] {
      assert ByRun(events, run)[0] in ByRun(events, run);
    }
  }

  lemma PartitionOfTurns(events: seq<Event>, done: set<string>, owners: Owners)
    requires Unique(events) && RunsJoined(events, done, owners)
    requires "" !in done && forall e :: e in events && e.run != "" ==> e.run in done
    ensures IsTurnPartition(events, owners, Unowned(events))
  {
    forall e | e in events ensures (e.id in owners <==> e.run != "") && (e.id in Unowned(events) <==> e.run == "") {
      forall f | f in events && f.id == e.id ensures f == e {
        SameIdSameEvent(events, e, f);
      }
    }
  }

  /** `build` at level `trace` never fails. */
  method BuildTraceGraph(events: seq<Event>) returns (built: bool, members: Turns, nodes: seq<InTurn>)
    requires Unique(events)
    ensures built && IsTurnLayout(events, members, nodes)
  {
    var owners, ignored;
    owners, ignored, members, nodes := TraceNodes(events);
    Regions.PlacedIsConsistent(members, nodes);
    built := Regions.ValidateMembership(members, nodes);
  }
}

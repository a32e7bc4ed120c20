/**
 * How a run's events are divided among the nodes of its graph: a dozen passes over the events,
 * against one classification of each event by itself.
 */
module Partition {
  import opened Wrappers

  datatype EventType =
    | ProcessInstanceStarted | ProcessInstanceClosed | SegmentStarted | SegmentClosed | AuditDegraded | AuditRecovered
    | TraceCreated | TraceLinked | TurnStarted | InputInjected | CancelRequested | TurnResponsePrepared | TurnFinished
    | ReturnedToCaller | DeliveryAttempted | DeliveryRetryScheduled | DeliveryFinished | RunStarted | RunFinished
    | OrphanRunSuspected | OrphanRunDetected | OrphanModelCallDetected | OrphanToolDetected | IterationStarted
    | IterationFinished | ModelRequestStarted | ModelFirstOutput | ModelResponseReceived | ModelRequestFailed
    | ProviderRouteDecision | ModelAttemptStarted | ModelAttemptFinished | RetryScheduled | ReasoningSummaryReceived
    | ToolStarted | ToolFinished | PolicyBlocked | ContinuationRequested | FinalizationRequested | CheckpointWritten
    | CheckpointRestored | CheckpointCleared | GoalCreated | GoalUpdated | GoalCompleted | GoalBlocked | GoalCancelled
    | Subagent(what: string)

  /** An audit event; an id it does not carry is the empty string. */
  datatype Event = Event(
    id: string, kind: EventType, run: string, turn: string, iteration: Option<int>,
    model: string, attempt: string, tool: string, checkpoint: string, goal: string, delivery: string,
    task: string, parent: string, idempotency: Option<string>
  )

  datatype NodeType =
    ModelCall | ModelAttempt | ToolCall | Decision | Checkpoint | Goal | Delivery | TurnResult | Anomaly

  predicate IsModelEvent(k: EventType) {
    k.ModelRequestStarted? || k.ModelFirstOutput? || k.ModelResponseReceived? || k.ModelRequestFailed?
  }

  predicate IsToolEvent(k: EventType) {
    k.ToolStarted? || k.ToolFinished?
  }

  predicate IsDecision(k: EventType) {
    k.ProviderRouteDecision? || k.RetryScheduled? || k.DeliveryRetryScheduled? || k.PolicyBlocked?
    || k.ContinuationRequested? || k.FinalizationRequested? || k.CancelRequested?
  }

  predicate IsCheckpointEvent(k: EventType) {
    k.CheckpointWritten? || k.CheckpointRestored? || k.CheckpointCleared?
  }

  predicate IsTurnResult(k: EventType) {
    k.TurnResponsePrepared? || k.TurnFinished? || k.ReturnedToCaller?
  }

  predicate IsAuditAnomaly(k: EventType) {
    k.OrphanRunSuspected? || k.OrphanRunDetected? || k.OrphanModelCallDetected? || k.OrphanToolDetected?
      || k.AuditDegraded?
  }

  predicate IsLifecycle(k: EventType) {
    k.RunStarted? || k.RunFinished?
  }

  predicate IsProcessEvent(k: EventType) {
    k.ProcessInstanceStarted? || k.ProcessInstanceClosed? || k.SegmentStarted? || k.SegmentClosed? || k.TraceCreated?
    || k.TraceLinked? || k.TurnStarted? || k.IterationStarted? || k.IterationFinished? || k.InputInjected?
    || k.ReasoningSummaryReceived?
  }

  predicate Unique(events: seq<Event>) {
    forall i, j :: 0 <= i < j < |events| ==> events[i].id != events[j].id
  }

  lemma SameIdSameEvent(events: seq<Event>, e: Event, f: Event)
    requires Unique(events) && e in events && f in events && e.id == f.id
    ensures e == f
  {
    var i :| 0 <= i < |events| && events[i] == e;
    var j :| 0 <= j < |events| && events[j] == f;
  }

  // ---- one event by itself ----

  /** What an event belongs to: the kind of node and the key within it. */
  datatype Owner = Owner(node: NodeType, key: string)

  function Named(node: NodeType, wanted: bool, key: string): Option<Owner> {
    if wanted && key != "" then Some(Owner(node, key)) else None
  }

  function Single(node: NodeType, wanted: bool, e: Event): Option<Owner> {
    if wanted then Some(Owner(node, e.id)) else None
  }

  /** The owner pass `p` offers to an event; passes 0 to 2 do not look at what earlier ones took. */
  function Offer(p: nat, inputs: bool, e: Event): Option<Owner> {
    match p
    case 0 => Named(ModelCall, IsModelEvent(e.kind), e.model)
    case 1 => Named(ModelAttempt, true, e.attempt)
    case 2 => Named(ToolCall, IsToolEvent(e.kind), e.tool)
    case 3 => Single(Decision, IsDecision(e.kind), e)
    case 4 => Named(Checkpoint, true, e.checkpoint)
    case 5 => Single(Anomaly, IsCheckpointEvent(e.kind), e)
    case 6 => Named(Goal, true, e.goal)
    case 7 => Named(Delivery, true, e.delivery)
    case 8 => if IsTurnResult(e.kind) then Some(Owner(TurnResult, "")) else None
    case 9 => Single(Decision, inputs && e.kind.InputInjected?, e)
    case 10 =>
      if IsAuditAnomaly(e.kind) then Some(Owner(Anomaly, e.id))
      else Single(Decision, !IsProcessEvent(e.kind) && !IsLifecycle(e.kind), e)
    case _ => None
  }

  const PASSES: nat := 11

  /** The first of the first `n` passes that offers the event an owner. */
  function FirstOffer(n: nat, inputs: bool, e: Event): Option<Owner> {
    if n == 0 then None
    else if FirstOffer(n - 1, inputs, e).Some? then FirstOffer(n - 1, inputs, e)
    else Offer(n - 1, inputs, e)
  }

  /** Where an event belongs, read off its own fields. */
  function OwnerOf(inputs: bool, e: Event): Option<Owner> {
    if e.kind in {ModelRequestStarted, ModelFirstOutput, ModelResponseReceived, ModelRequestFailed} && e.model != ""
    then Some(Owner(ModelCall, e.model))
    else if e.attempt != "" then Some(Owner(ModelAttempt, e.attempt))
    else if e.kind in {ToolStarted, ToolFinished} && e.tool != "" then Some(Owner(ToolCall, e.tool))
    else if e.kind in {ProviderRouteDecision, RetryScheduled, DeliveryRetryScheduled, PolicyBlocked,
                       ContinuationRequested, FinalizationRequested, CancelRequested}
    then Some(Owner(Decision, e.id))
    else if e.checkpoint != "" then Some(Owner(Checkpoint, e.checkpoint))
    else if e.kind in {CheckpointWritten, CheckpointRestored, CheckpointCleared} then Some(Owner(Anomaly, e.id))
    else if e.goal != "" then Some(Owner(Goal, e.goal))
    else if e.delivery != "" then Some(Owner(Delivery, e.delivery))
    else if e.kind in {TurnResponsePrepared, TurnFinished, ReturnedToCaller} then Some(Owner(TurnResult, ""))
    else if e.kind in {OrphanRunSuspected, OrphanRunDetected, OrphanModelCallDetected, OrphanToolDetected,
                       AuditDegraded}
    then Some(Owner(Anomaly, e.id))
    else if e.kind.InputInjected? then (if inputs then Some(Owner(Decision, e.id)) else None)
    else if e.kind in {ProcessInstanceStarted, ProcessInstanceClosed, SegmentStarted, SegmentClosed, TraceCreated,
                       TraceLinked, TurnStarted, IterationStarted, IterationFinished, ReasoningSummaryReceived,
                       RunStarted, RunFinished}
    then None
    else Some(Owner(Decision, e.id))
  }

  /** The passes come to the same owner, one after the other. */
  lemma FirstOfferIsOwner(inputs: bool, e: Event)
    ensures FirstOffer(PASSES, inputs, e) == OwnerOf(inputs, e)
  {
    OffersInTurn(inputs, e);
    assert FirstOffer(11, inputs, e) == if FirstOffer(10, inputs, e).Some? then FirstOffer(10, inputs, e)
                                        else Offer(10, inputs, e);
  }

  lemma OffersInTurn(inputs: bool, e: Event)
    ensures FirstOffer(4, inputs, e)
            == if Offer(0, inputs, e).Some? then Offer(0, inputs, e)
               else if Offer(1, inputs, e).Some? then Offer(1, inputs, e)
               else if Offer(2, inputs, e).Some? then Offer(2, inputs, e)
               else Offer(3, inputs, e)
    ensures FirstOffer(10, inputs, e)
            == if FirstOffer(4, inputs, e).Some? then FirstOffer(4, inputs, e)
               else if Offer(4, inputs, e).Some? then Offer(4, inputs, e)
               else if Offer(5, inputs, e).Some? then Offer(5, inputs, e)
               else if Offer(6, inputs, e).Some? then Offer(6, inputs, e)
               else if Offer(7, inputs, e).Some? then Offer(7, inputs, e)
               else if Offer(8, inputs, e).Some? then Offer(8, inputs, e)
               else Offer(9, inputs, e)
  {
    assert FirstOffer(1, inputs, e) == Offer(0, inputs, e);
    assert FirstOffer(2, inputs, e).Some? ==> FirstOffer(3, inputs, e) == FirstOffer(2, inputs, e);
    assert FirstOffer(6, inputs, e)
           == if FirstOffer(5, inputs, e).Some? then FirstOffer(5, inputs, e) else Offer(5, inputs, e);
    assert FirstOffer(8, inputs, e)
           == if FirstOffer(7, inputs, e).Some? then FirstOffer(7, inputs, e) else Offer(7, inputs, e);
  }

  /**
   * The event is claimed twice: it carries an attempt id although it is a model event of a model
   * call or a tool event of a tool call.
   */
  predicate ClaimedTwice(e: Event) {
    var model :=
      e.kind in {ModelRequestStarted, ModelFirstOutput, ModelResponseReceived, ModelRequestFailed} && e.model != "";
    e.attempt != "" && (model || (e.kind in {ToolStarted, ToolFinished} && e.tool != ""))
  }

  // ---- the passes ----

  datatype Group = Group(pass: nat, owner: Owner, members: seq<Event>)

  function Ids(events: seq<Event>): set<string> {
    set e | e in events :: e.id
  }

  predicate Respects(p: nat) {
    p >= 3
  }

  /** Pass `p` takes the event, after earlier passes consumed some. */
  function Taken(p: nat, inputs: bool, consumed: set<string>, e: Event): Option<Owner> {
    if Respects(p) && e.id in consumed then None else Offer(p, inputs, e)
  }

  function Select(p: nat, inputs: bool, consumed: set<string>, events: seq<Event>, o: Owner): (s: seq<Event>)
    ensures forall e :: e in s <==> e in events && Taken(p, inputs, consumed, e) == Some(o)
  {
    if events == [] then []
    else
      var rest, last := Select(p, inputs, consumed, events[..|events| - 1], o), events[|events| - 1];
      assert events == events[..|events| - 1] + [last];
      if Taken(p, inputs, consumed, last) == Some(o) then rest + [last] else rest
  }

  /** Events in the order in which the others stand. */
  ghost predicate InEventOrder(events: seq<Event>, members: seq<Event>) {
    exists at :: Keeps(events, at, members)
  }

  lemma {:induction false} SelectKeepsOrder(p: nat, inputs: bool, consumed: set<string>, events: seq<Event>, o: Owner)
    ensures InEventOrder(events, Select(p, inputs, consumed, events, o))
  {
    if events == [] {
      assert Keeps(events, [], []);
    } else {
      var front, last := events[..|events| - 1], events[|events| - 1];
      SelectKeepsOrder(p, inputs, consumed, front, o);
      var at :| Keeps(front, at, Select(p, inputs, consumed, front, o));
      KeepsStep(front, at, Select(p, inputs, consumed, front, o), last, Taken(p, inputs, consumed, last) == Some(o));
      assert events == front + [last];
    }
  }

  ghost predicate IsPass(p: nat, inputs: bool, consumed: set<string>, events: seq<Event>, groups: seq<Group>) {
    && (forall i :: 0 <= i < |groups| ==>
          groups[i].pass == p && groups[i].members != []
          && groups[i].members == Select(p, inputs, consumed, events, groups[i].owner))
    && (forall e :: e in events && Taken(p, inputs, consumed, e).Some? ==>
          exists i :: 0 <= i < |groups| && groups[i].owner == Taken(p, inputs, consumed, e).value)
    && forall i, j :: 0 <= i < j < |groups| ==> groups[i].owner != groups[j].owner
  }

  /** The owners a pass offers, in the order they are met. */
  method OwnersMet(p: nat, inputs: bool, consumed: set<string>, events: seq<Event>) returns (owners: seq<Owner>)
    ensures forall o :: o in owners <==> exists e :: e in events && Taken(p, inputs, consumed, e) == Some(o)
    ensures forall i, j :: 0 <= i < j < |owners| ==> owners[i] != owners[j]
  {
    owners := [];
    for k := 0 to |events|
      invariant forall o :: o in owners <==> exists e :: e in events[..k] && Taken(p, inputs, consumed, e) == Some(o)
      invariant forall i, j :: 0 <= i < j < |owners| ==> owners[i] != owners[j]
    {
      var t := Taken(p, inputs, consumed, events[k]);
      assert events[..k + 1] == events[..k] + [events[k]];
      if t.Some? && t.value !in owners {
        owners := owners + [t.value];
      }
    }
    assert events[..|events|] == events;
  }

  /** One pass: a group for each owner it offers, in the order the owners are met. */
  method RunPass(p: nat, inputs: bool, consumed: set<string>, events: seq<Event>)
    returns (groups: seq<Group>, now: set<string>)
    ensures IsPass(p, inputs, consumed, events, groups)
    ensures forall id :: id in now <==>
              id in consumed || exists e :: e in events && e.id == id && Taken(p, inputs, consumed, e).Some?
  {
    var owners := OwnersMet(p, inputs, consumed, events);
    groups, now := [], consumed;
    for k := 0 to |owners|
      invariant |groups| == k
      invariant forall i :: 0 <= i < k ==>
                  groups[i] == Group(p, owners[i], Select(p, inputs, consumed, events, owners[i]))
      invariant forall id :: id in now <==> id in consumed || TakenBy(p, inputs, consumed, events, owners[..k], id)
    {
      var selected := Select(p, inputs, consumed, events, owners[k]);
      OneMoreOwner(p, inputs, consumed, events, owners, k);
      groups := groups + [Group(p, owners[k], selected)];
      now := now + Ids(selected);
    }
    forall i | 0 <= i < |groups| ensures groups[i].members != [] {
      assert owners[i] in owners;
      var e :| e in events && Taken(p, inputs, consumed, e) == Some(owners[i]);
      assert e in groups[i].members;
    }
    assert owners[..|owners|] == owners;
    forall id ensures id in now <==>
                        id in consumed || exists e :: e in events && e.id == id && Taken(p, inputs, consumed, e).Some?
    {
      if e :| e in events && e.id == id && Taken(p, inputs, consumed, e).Some? {
        assert Taken(p, inputs, consumed, e).value in owners;
      }
    }
  }

  /** One of the owners takes an event with this id. */
  ghost predicate TakenBy(p: nat, inputs: bool, consumed: set<string>, events: seq<Event>, owners: seq<Owner>,
    id: string)
  {
    exists e :: e in events && e.id == id && Taken(p, inputs, consumed, e).Some?
                && Taken(p, inputs, consumed, e).value in owners
  }

  lemma OneMoreOwner(p: nat, inputs: bool, consumed: set<string>, events: seq<Event>, owners: seq<Owner>, k: nat)
    requires k < |owners|
    ensures forall id :: TakenBy(p, inputs, consumed, events, owners[..k + 1], id)
                         <==> TakenBy(p, inputs, consumed, events, owners[..k], id)
                              || id in Ids(Select(p, inputs, consumed, events, owners[k]))
  {
    assert owners[..k + 1] == owners[..k] + [owners[k]];
    forall id | id in Ids(Select(p, inputs, consumed, events, owners[k]))
      ensures TakenBy(p, inputs, consumed, events, owners[..k + 1], id)
    {
      var e :| e in Select(p, inputs, consumed, events, owners[k]) && e.id == id;
      assert Taken(p, inputs, consumed, e).value in owners[..k + 1];
    }
  }

  // ---- all passes ----

  /** Pass `q` claims the event once the earlier passes have run. */
  function Claim(q: nat, inputs: bool, e: Event): Option<Owner> {
    if Respects(q) && FirstOffer(q, inputs, e).Some? then None else Offer(q, inputs, e)
  }

  /** After `n` passes the consumed ids are those of events with an offer. */
  ghost predicate ConsumedAfter(n: nat, inputs: bool, events: seq<Event>, consumed: set<string>) {
    forall id :: id in consumed <==> exists e :: e in events && e.id == id && FirstOffer(n, inputs, e).Some?
  }

  /** The groups hold every claim of the first `n` passes, each in one place. */
  ghost predicate HoldClaims(n: nat, inputs: bool, events: seq<Event>, groups: seq<Group>) {
    && (forall i :: 0 <= i < |groups| ==> groups[i].pass < n && groups[i].members != [] && Unique(groups[i].members))
    && (forall i :: 0 <= i < |groups| ==> InEventOrder(events, groups[i].members))
    && (forall i, e :: 0 <= i < |groups| && e in groups[i].members ==>
          e in events && Claim(groups[i].pass, inputs, e) == Some(groups[i].owner))
    && (forall q: nat, e :: q < n && e in events && Claim(q, inputs, e).Some? ==> IsPlaced(groups, q, inputs, e))
    && forall i, j :: 0 <= i < j < |groups| ==> groups[i].pass != groups[j].pass || groups[i].owner != groups[j].owner
  }

  /** The claim of pass `q` on the event has a group, and the event is in it. */
  ghost predicate IsPlaced(groups: seq<Group>, q: nat, inputs: bool, e: Event) {
    exists i :: 0 <= i < |groups| && groups[i].pass == q && Claim(q, inputs, e) == Some(groups[i].owner)
      && e in groups[i].members
  }

  lemma TakenIsClaim(n: nat, inputs: bool, events: seq<Event>, consumed: set<string>, e: Event)
    requires Unique(events) && ConsumedAfter(n, inputs, events, consumed) && e in events
    ensures Taken(n, inputs, consumed, e) == Claim(n, inputs, e)
    ensures e.id in consumed <==> FirstOffer(n, inputs, e).Some?
  {
    if e.id in consumed {
      var f :| f in events && f.id == e.id && FirstOffer(n, inputs, f).Some?;
      assert f == e;
    }
  }

  lemma PassConsumes(n: nat, inputs: bool, events: seq<Event>, consumed: set<string>, now: set<string>)
    requires Unique(events) && ConsumedAfter(n, inputs, events, consumed) && n < PASSES
    requires forall id :: id in now <==>
               id in consumed || exists e :: e in events && e.id == id && Taken(n, inputs, consumed, e).Some?
    ensures ConsumedAfter(n + 1, inputs, events, now)
  {
    forall e | e in events
      ensures e.id in consumed || Taken(n, inputs, consumed, e).Some? <==> FirstOffer(n + 1, inputs, e).Some?
    {
      TakenIsClaim(n, inputs, events, consumed, e);
    }
  }

  lemma {:induction false} SelectIsUnique(p: nat, inputs: bool, consumed: set<string>, events: seq<Event>, o: Owner)
    requires Unique(events)
    ensures Unique(Select(p, inputs, consumed, events, o))
  {
    if events != [] {
      var n := |events| - 1;
      SelectIsUnique(p, inputs, consumed, events[..n], o);
      forall e | e in events[..n] ensures e.id != events[n].id {
        var i :| 0 <= i < n && events[i] == e;
      }
    }
  }

  lemma PassPlaces(n: nat, inputs: bool, events: seq<Event>, consumed: set<string>, added: seq<Group>)
    requires Unique(events) && ConsumedAfter(n, inputs, events, consumed) && IsPass(n, inputs, consumed, events, added)
    ensures forall i, e :: 0 <= i < |added| && e in added[i].members ==>
              e in events && Claim(n, inputs, e) == Some(added[i].owner)
    ensures forall i :: 0 <= i < |added| ==> Unique(added[i].members) && InEventOrder(events, added[i].members)
    ensures forall e :: e in events && Claim(n, inputs, e).Some? ==> IsPlaced(added, n, inputs, e)
  {
    forall i, e | 0 <= i < |added| && e in added[i].members
      ensures e in events && Claim(n, inputs, e) == Some(added[i].owner)
    {
      TakenIsClaim(n, inputs, events, consumed, e);
    }
    forall i | 0 <= i < |added| ensures Unique(added[i].members) && InEventOrder(events, added[i].members) {
      SelectIsUnique(n, inputs, consumed, events, added[i].owner);
      SelectKeepsOrder(n, inputs, consumed, events, added[i].owner);
    }
    forall e | e in events && Claim(n, inputs, e).Some? ensures IsPlaced(added, n, inputs, e) {
      TakenIsClaim(n, inputs, events, consumed, e);
      var i :| 0 <= i < |added| && added[i].owner == Taken(n, inputs, consumed, e).value;
      assert e in added[i].members;
    }
  }

  lemma PlacedStays(groups: seq<Group>, added: seq<Group>, q: nat, inputs: bool, e: Event)
    requires IsPlaced(groups, q, inputs, e) || IsPlaced(added, q, inputs, e)
    ensures IsPlaced(groups + added, q, inputs, e)
  {
    var all := groups + added;
    if IsPlaced(groups, q, inputs, e) {
      var i :| 0 <= i < |groups| && groups[i].pass == q && Claim(q, inputs, e) == Some(groups[i].owner)
        && e in groups[i].members;
      assert all[i] == groups[i];
    } else {
      var i :| 0 <= i < |added| && added[i].pass == q && Claim(q, inputs, e) == Some(added[i].owner)
        && e in added[i].members;
      assert all[|groups| + i] == added[i];
    }
  }

  lemma PassKeepsClaims(n: nat, inputs: bool, events: seq<Event>, consumed: set<string>, groups: seq<Group>,
    added: seq<Group>)
    requires Unique(events) && ConsumedAfter(n, inputs, events, consumed)
    requires HoldClaims(n, inputs, events, groups) && IsPass(n, inputs, consumed, events, added)
    ensures HoldClaims(n + 1, inputs, events, groups + added)
  {
    var all := groups + added;
    PassPlaces(n, inputs, events, consumed, added);
    forall q: nat, e | q < n + 1 && e in events && Claim(q, inputs, e).Some? ensures IsPlaced(all, q, inputs, e) {
      PlacedStays(groups, added, q, inputs, e);
    }
  }

  /** What the passes of `_run_nodes` leave: the groups, and the events no pass took. */
  method RunPasses(inputs: bool, events: seq<Event>) returns (groups: seq<Group>, ignored: seq<string>)
    requires Unique(events)
    ensures HoldClaims(PASSES, inputs, events, groups)
    ensures forall id :: id in ignored <==> exists e :: e in events && e.id == id && OwnerOf(inputs, e).None?
  {
    groups := [];
    var consumed: set<string> := {};
    for p := 0 to PASSES
      invariant ConsumedAfter(p, inputs, events, consumed)
      invariant HoldClaims(p, inputs, events, groups)
    {
      var more, now := RunPass(p, inputs, consumed, events);
      PassConsumes(p, inputs, events, consumed, now);
      PassKeepsClaims(p, inputs, events, consumed, groups, more);
      groups, consumed := groups + more, now;
    }
    ignored := [];
    for k := 0 to |events|
      invariant forall id :: id in ignored <==> exists e :: e in events[..k] && e.id == id && e.id !in consumed
    {
      assert events[..k + 1] == events[..k] + [events[k]];
      if events[k].id !in consumed {
        ignored := ignored + [events[k].id];
      }
    }
    assert events[..|events|] == events;
    forall e | e in events ensures e.id in consumed <==> OwnerOf(inputs, e).Some? {
      TakenIsClaim(PASSES, inputs, events, consumed, e);
      FirstOfferIsOwner(inputs, e);
    }
  }

  // ---- who is claimed, and how often ----

  /** The passes 0 to 2 offer an event something only by its own ids. */
  lemma ClaimsOf(inputs: bool, e: Event, q: nat, r: nat)
    requires q < r && Claim(q, inputs, e).Some? && Claim(r, inputs, e).Some?
    ensures ClaimedTwice(e)
  {
    if Respects(r) {
      OfferIsNoticed(inputs, e, q, r);
    }
  }

  lemma {:induction false} OfferIsNoticed(inputs: bool, e: Event, q: nat, n: nat)
    requires q < n && Offer(q, inputs, e).Some?
    ensures FirstOffer(n, inputs, e).Some?
  {
    if q < n - 1 {
      OfferIsNoticed(inputs, e, q, n - 1);
    }
  }

  lemma {:induction false} FirstOfferIsClaim(inputs: bool, e: Event, n: nat)
    ensures FirstOffer(n, inputs, e).Some? ==> exists q: nat :: q < n && Claim(q, inputs, e) == FirstOffer(n, inputs, e)
    ensures FirstOffer(n, inputs, e).None? ==> forall q: nat :: q < n ==> Claim(q, inputs, e).None?
  {
    if n > 0 {
      FirstOfferIsClaim(inputs, e, n - 1);
      if FirstOffer(n, inputs, e).Some? {
        if FirstOffer(n - 1, inputs, e).None? {
          assert Claim(n - 1, inputs, e) == FirstOffer(n, inputs, e);
        } else {
          var q: nat :| q < n - 1 && Claim(q, inputs, e) == FirstOffer(n - 1, inputs, e);
          assert Claim(q, inputs, e) == FirstOffer(n, inputs, e);
        }
      }
    }
  }

  /** An event that is claimed twice is claimed by pass 1 and by pass 0 or 2. */
  lemma TwiceMeansTwoClaims(inputs: bool, e: Event)
    requires ClaimedTwice(e)
    ensures Claim(1, inputs, e).Some? && (Claim(0, inputs, e).Some? || Claim(2, inputs, e).Some?)
  {
  }

  // ---- adding the nodes ----

  predicate At(groups: seq<Group>, i: int, k: int) {
    0 <= i < |groups| && 0 <= k < |groups[i].members|
  }

  function IdIn(groups: seq<Group>, i: int, k: int): string
    requires At(groups, i, k)
  {
    groups[i].members[k].id
  }

  /** Two places of the groups hold the same event id. */
  ghost predicate Repeats(groups: seq<Group>) {
    exists i, k, j, l ::
        At(groups, i, k) && At(groups, j, l) && (i != j || k != l) && IdIn(groups, i, k) == IdIn(groups, j, l)
  }

  /** `add` for each node: the node index becomes the owner of its events, unless one has an owner already. */
  method AddNodes(groups: seq<Group>) returns (owners: Option<map<string, nat>>)
    ensures owners.None? <==> Repeats(groups)
    ensures owners.Some? ==>
              && (forall i, k :: At(groups, i, k) ==>
                     IdIn(groups, i, k) in owners.value && owners.value[IdIn(groups, i, k)] == i)
              && forall id :: id in owners.value ==> exists i, k :: At(groups, i, k) && IdIn(groups, i, k) == id
  {
    var owned: map<string, nat> := map[];
    for i := 0 to |groups|
      invariant Owns(groups, owned, i, 0)
    {
      for k := 0 to |groups[i].members|
        invariant Owns(groups, owned, i, k)
      {
        var id := groups[i].members[k].id;
        assert IdIn(groups, i, k) == id;
        if id in owned {
          var j, l :| Before(groups, j, l, i, k) && IdIn(groups, j, l) == id;
          return None;
        }
        owned := owned[id := i];
      }
    }
    assert forall i, k :: At(groups, i, k) ==> Before(groups, i, k, |groups|, 0);
    return Some(owned);
  }

  /** Place `(j, l)` comes before place `(i, k)`. */
  predicate Before(groups: seq<Group>, j: int, l: int, i: int, k: int) {
    At(groups, j, l) && (j < i || (j == i && l < k))
  }

  ghost predicate Owns(groups: seq<Group>, owned: map<string, nat>, i: int, k: int) {
    && (forall j, l :: Before(groups, j, l, i, k) ==> IdIn(groups, j, l) in owned && owned[IdIn(groups, j, l)] == j)
    && (forall id :: id in owned ==> exists j, l :: Before(groups, j, l, i, k) && IdIn(groups, j, l) == id)
    && forall j, l, m, n :: Before(groups, j, l, i, k) && Before(groups, m, n, i, k) && (j != m || l != n) ==>
                              IdIn(groups, j, l) != IdIn(groups, m, n)
  }

  /** The graph of a run: its nodes, the node that owns each event, and the events without one. */
  datatype RunGraph = RunGraph(groups: seq<Group>, owners: map<string, nat>, ignored: seq<string>)

  /** Each event is owned by the one node the classification names, or ignored, and never both. */
  ghost predicate IsPartition(inputs: bool, events: seq<Event>, g: RunGraph) {
    && (forall e :: e in events ==>
          if OwnerOf(inputs, e).Some? then e.id in g.owners && e.id !in g.ignored
          else e.id !in g.owners && e.id in g.ignored)
    && (forall e :: e in events && e.id in g.owners ==>
          g.owners[e.id] < |g.groups| && g.groups[g.owners[e.id]].owner == OwnerOf(inputs, e).value
          && e in g.groups[g.owners[e.id]].members)
    && (forall i, e :: 0 <= i < |g.groups| && e in g.groups[i].members ==>
           e in events && e.id in g.owners && g.owners[e.id] == i)
    && (forall i :: 0 <= i < |g.groups| ==>
          g.groups[i].members != [] && Unique(g.groups[i].members) && InEventOrder(events, g.groups[i].members))
    && (forall i, j :: 0 <= i < j < |g.groups| ==> g.groups[i].owner != g.groups[j].owner)
    && forall id :: id in g.owners ==> exists e :: e in events && e.id == id
  }

  /** The kind and the key of the node that owns the event, if one does. */
  function NodeOwning(g: RunGraph, e: Event): Option<Owner> {
    if e.id in g.owners && g.owners[e.id] < |g.groups| then Some(g.groups[g.owners[e.id]].owner) else None
  }

  /** No model, attempt or tool id and no decision: the event is left to the passes behind the first four. */
  predicate IsLeft(e: Event) {
    && !(e.model != ""
         && e.kind in {ModelRequestStarted, ModelFirstOutput, ModelResponseReceived, ModelRequestFailed})
    && e.attempt == "" && !(e.tool != "" && e.kind in {ToolStarted, ToolFinished})
    && e.kind !in {ProviderRouteDecision, RetryScheduled, DeliveryRetryScheduled, PolicyBlocked,
                   ContinuationRequested, FinalizationRequested, CancelRequested}
  }

  /** What is left after the first six passes: no checkpoint id and no checkpoint event either. */
  predicate IsLate(e: Event) {
    IsLeft(e) && e.checkpoint == "" && e.kind !in {CheckpointWritten, CheckpointRestored, CheckpointCleared}
  }

  /** The kind of an event and the ids it carries name the node that owns it. */
  predicate IsNamed(inputs: bool, e: Event, o: Option<Owner>) {
    && (e.model != "" && e.kind in {ModelRequestStarted, ModelFirstOutput, ModelResponseReceived, ModelRequestFailed}
        ==> o == Some(Owner(ModelCall, e.model)))
    && (e.attempt != "" ==> o == Some(Owner(ModelAttempt, e.attempt)))
    && (e.tool != "" && e.kind in {ToolStarted, ToolFinished} ==> o == Some(Owner(ToolCall, e.tool)))
    && (IsLeft(e) && e.checkpoint != "" ==> o == Some(Owner(Checkpoint, e.checkpoint)))
    && (IsLeft(e) && !IsLate(e) && e.checkpoint == "" ==> o == Some(Owner(Anomaly, e.id)))
    && (IsLate(e) && e.goal != "" ==> o == Some(Owner(Goal, e.goal)))
    && (IsLate(e) && e.goal == "" && e.delivery != "" ==> o == Some(Owner(Delivery, e.delivery)))
    && (IsLate(e) && e.goal == e.delivery == "" && e.kind in {TurnResponsePrepared, TurnFinished, ReturnedToCaller}
        ==> o == Some(Owner(TurnResult, "")))
    && (IsLate(e) && e.goal == e.delivery == ""
        && e.kind in {OrphanRunSuspected, OrphanRunDetected, OrphanModelCallDetected, OrphanToolDetected, AuditDegraded}
        ==> o == Some(Owner(Anomaly, e.id)))
    && (e.attempt == "" && e.kind in {ProviderRouteDecision, RetryScheduled, DeliveryRetryScheduled, PolicyBlocked,
                                      ContinuationRequested, FinalizationRequested, CancelRequested}
        ==> o == Some(Owner(Decision, e.id)))
    && (IsLate(e) && e.goal == e.delivery == "" && e.kind.InputInjected? ==>
          o == if inputs then Some(Owner(Decision, e.id)) else None)
    && (IsLate(e) && e.goal == e.delivery == ""
        && e.kind in {ProcessInstanceStarted, ProcessInstanceClosed, SegmentStarted, SegmentClosed, TraceCreated,
                      TraceLinked, TurnStarted, IterationStarted, IterationFinished, ReasoningSummaryReceived,
                      RunStarted, RunFinished}
        ==> o == None)
    && (o.Some? && o.value.node in {Decision, Anomaly} ==> o.value.key == e.id)
  }

  /** Two events of one sort have the same node if and only if they carry the same id. */
  predicate IsDecided(e: Event, f: Event, same: bool) {
    && (e.model != "" && f.model != ""
        && e.kind in {ModelRequestStarted, ModelFirstOutput, ModelResponseReceived, ModelRequestFailed}
        && f.kind in {ModelRequestStarted, ModelFirstOutput, ModelResponseReceived, ModelRequestFailed} ==>
          (same <==> e.model == f.model))
    && (e.attempt != "" && f.attempt != "" ==> (same <==> e.attempt == f.attempt))
    && (e.tool != "" && e.kind in {ToolStarted, ToolFinished} && f.tool != "" && f.kind in {ToolStarted, ToolFinished}
        ==> (same <==> e.tool == f.tool))
    && (IsLeft(e) && IsLeft(f) && e.checkpoint != "" && f.checkpoint != "" ==> (same <==> e.checkpoint == f.checkpoint))
    && (IsLate(e) && IsLate(f) && e.goal != "" && f.goal != "" ==> (same <==> e.goal == f.goal))
    && (IsLate(e) && IsLate(f) && e.goal == f.goal == "" && e.delivery != "" && f.delivery != "" ==>
          (same <==> e.delivery == f.delivery))
  }

  lemma OwnerIsNamed(inputs: bool, e: Event)
    requires !ClaimedTwice(e)
    ensures IsNamed(inputs, e, OwnerOf(inputs, e))
  {
  }

  lemma NamedDecides(inputs: bool, e: Event, f: Event, o: Option<Owner>, p: Option<Owner>)
    requires IsNamed(inputs, e, o) && IsNamed(inputs, f, p)
    ensures IsDecided(e, f, o == p)
  {
  }

  /** The graph of a run by the fields of its events: their nodes, and which of them share one. */
  ghost predicate IsByFields(inputs: bool, events: seq<Event>, g: RunGraph) {
    && (forall e :: e in events ==> IsNamed(inputs, e, NodeOwning(g, e)))
    && forall e, f :: e in events && f in events && e.id in g.owners && f.id in g.owners ==>
         IsDecided(e, f, g.owners[e.id] == g.owners[f.id])
  }

  lemma PartitionIsByFields(inputs: bool, events: seq<Event>, g: RunGraph)
    requires IsPartition(inputs, events, g) && forall e :: e in events ==> !ClaimedTwice(e)
    ensures IsByFields(inputs, events, g)
  {
    forall e | e in events ensures NodeOwning(g, e) == OwnerOf(inputs, e) && IsNamed(inputs, e, NodeOwning(g, e)) {
      OwnerIsNamed(inputs, e);
    }
    forall e, f | e in events && f in events && e.id in g.owners && f.id in g.owners
      ensures IsDecided(e, f, g.owners[e.id] == g.owners[f.id])
    {
      SameOwnerSameNode(inputs, events, g, e, f);
      OwnerIsNamed(inputs, e);
      OwnerIsNamed(inputs, f);
      NamedDecides(inputs, e, f, OwnerOf(inputs, e), OwnerOf(inputs, f));
    }
  }

  lemma SameOwnerSameNode(inputs: bool, events: seq<Event>, g: RunGraph, e: Event, f: Event)
    requires IsPartition(inputs, events, g) && e in events && f in events && e.id in g.owners && f.id in g.owners
    ensures g.owners[e.id] == g.owners[f.id] <==> OwnerOf(inputs, e) == OwnerOf(inputs, f)
  {
    var i, j := g.owners[e.id], g.owners[f.id];
    if i != j {
      assert g.groups[if i < j then i else j].owner != g.groups[if i < j then j else i].owner;
    }
  }

  /** Groups with one owner would share an event, or be of one pass. */
  lemma OwnersDiffer(inputs: bool, events: seq<Event>, groups: seq<Group>, i: nat, j: nat)
    requires Unique(events) && HoldClaims(PASSES, inputs, events, groups) && i < j < |groups|
    requires forall e :: e in events ==> !ClaimedTwice(e)
    ensures groups[i].owner != groups[j].owner
  {
    var e, f := groups[i].members[0], groups[j].members[0];
    assert e in groups[i].members && f in groups[j].members;
    var p, q := groups[i].pass, groups[j].pass;
    if groups[i].owner == groups[j].owner {
      assert Claim(p, inputs, e) == Some(groups[i].owner);
      assert Claim(q, inputs, f) == Some(groups[j].owner);
      assert p != q;
      OfferOfTwo(inputs, e, f, p, q);
      SameIdSameEvent(events, e, f);
      ClaimsOf(inputs, e, if p < q then p else q, if p < q then q else p);
    }
  }

  /** Two passes offer the same owner only under the event's own id. */
  lemma OfferOfTwo(inputs: bool, e: Event, f: Event, p: nat, q: nat)
    requires p != q && Offer(p, inputs, e).Some? && Offer(p, inputs, e) == Offer(q, inputs, f)
    ensures e.id == f.id
  {
  }

  lemma RepeatedIsClaimedTwice(inputs: bool, events: seq<Event>, groups: seq<Group>, i: int, k: int, j: int, l: int)
    requires Unique(events) && HoldClaims(PASSES, inputs, events, groups)
    requires At(groups, i, k) && At(groups, j, l) && (i != j || k != l) && IdIn(groups, i, k) == IdIn(groups, j, l)
    ensures groups[i].members[k] in events && ClaimedTwice(groups[i].members[k])
  {
    var e := groups[i].members[k];
    assert e in groups[i].members && groups[j].members[l] in groups[j].members;
    SameIdSameEvent(events, e, groups[j].members[l]);
    var q, r := groups[i].pass, groups[j].pass;
    assert Claim(q, inputs, e) == Some(groups[i].owner) && Claim(r, inputs, e) == Some(groups[j].owner);
    if q < r {
      ClaimsOf(inputs, e, q, r);
    } else {
      assert q != r;
      ClaimsOf(inputs, e, r, q);
    }
  }

  lemma ClaimedTwiceIsRepeated(inputs: bool, events: seq<Event>, groups: seq<Group>, e: Event)
    requires HoldClaims(PASSES, inputs, events, groups) && e in events && ClaimedTwice(e)
    ensures Repeats(groups)
  {
    TwiceMeansTwoClaims(inputs, e);
    var q: nat := if Claim(0, inputs, e).Some? then 0 else 2;
    assert IsPlaced(groups, 1, inputs, e) && IsPlaced(groups, q, inputs, e);
    var i :| 0 <= i < |groups| && groups[i].pass == 1 && e in groups[i].members;
    var j :| 0 <= j < |groups| && groups[j].pass == q && e in groups[j].members;
    var k :| 0 <= k < |groups[i].members| && groups[i].members[k] == e;
    var l :| 0 <= l < |groups[j].members| && groups[j].members[l] == e;
    assert At(groups, i, k) && At(groups, j, l) && IdIn(groups, i, k) == IdIn(groups, j, l);
  }

  /** The claim that stands is the classification, unless the event is claimed twice. */
  lemma ClaimIsOwner(inputs: bool, e: Event, q: nat)
    requires !ClaimedTwice(e) && q < PASSES && Claim(q, inputs, e).Some?
    ensures OwnerOf(inputs, e) == Claim(q, inputs, e)
  {
    OfferIsNoticed(inputs, e, q, PASSES);
    FirstOfferIsClaim(inputs, e, PASSES);
    FirstOfferIsOwner(inputs, e);
    assert FirstOffer(PASSES, inputs, e).Some?;
    var r: nat :| r < PASSES && Claim(r, inputs, e) == FirstOffer(PASSES, inputs, e);
    if r < q {
      ClaimsOf(inputs, e, r, q);
    } else if q < r {
      ClaimsOf(inputs, e, q, r);
    }
  }

  lemma OwnersPartition(inputs: bool, events: seq<Event>, groups: seq<Group>, owners: map<string, nat>, e: Event)
    requires Unique(events) && HoldClaims(PASSES, inputs, events, groups) && e in events && !ClaimedTwice(e)
    requires forall i, k :: At(groups, i, k) ==> IdIn(groups, i, k) in owners && owners[IdIn(groups, i, k)] == i
    requires forall id :: id in owners ==> exists i, k :: At(groups, i, k) && IdIn(groups, i, k) == id
    ensures OwnerOf(inputs, e).Some? <==> e.id in owners
    ensures e.id in owners ==> owners[e.id] < |groups| && e in groups[owners[e.id]].members
                               && groups[owners[e.id]].owner == OwnerOf(inputs, e).value
  {
    if OwnerOf(inputs, e).Some? {
      FirstOfferIsClaim(inputs, e, PASSES);
      FirstOfferIsOwner(inputs, e);
      var q: nat :| q < PASSES && Claim(q, inputs, e) == OwnerOf(inputs, e);
      assert IsPlaced(groups, q, inputs, e);
      var i :| 0 <= i < |groups| && groups[i].pass == q && e in groups[i].members;
      var k :| 0 <= k < |groups[i].members| && groups[i].members[k] == e;
      assert At(groups, i, k) && IdIn(groups, i, k) == e.id;
    }
    if e.id in owners {
      var i, k :| At(groups, i, k) && IdIn(groups, i, k) == e.id;
      assert groups[i].members[k] in groups[i].members;
      SameIdSameEvent(events, e, groups[i].members[k]);
      ClaimIsOwner(inputs, e, groups[i].pass);
    }
  }

  /**
   * `_run_nodes`: it raises if and only if some event is claimed twice; otherwise every event has
   * exactly the owner its own fields name, or is ignored.
   */
  method RunNodes(inputs: bool, events: seq<Event>) returns (graph: Option<RunGraph>)
    requires Unique(events)
    ensures graph.None? <==> exists e :: e in events && ClaimedTwice(e)
    ensures graph.Some? ==> IsPartition(inputs, events, graph.value)
    ensures graph.Some? ==> IsByFields(inputs, events, graph.value)
  {
    var groups, ignored := RunPasses(inputs, events);
    var owners := AddNodes(groups);
    if owners.None? {
      var i, k, j, l :| At(groups, i, k) && At(groups, j, l) && (i != j || k != l)
        && IdIn(groups, i, k) == IdIn(groups, j, l);
      RepeatedIsClaimedTwice(inputs, events, groups, i, k, j, l);
      return None;
    }
    forall e | e in events ensures !ClaimedTwice(e) {
      if ClaimedTwice(e) {
        ClaimedTwiceIsRepeated(inputs, events, groups, e);
      }
    }
    graph := Some(RunGraph(groups, owners.value, ignored));
    PartitionHolds(inputs, events, groups, owners.value, ignored);
    PartitionIsByFields(inputs, events, graph.value);
  }

  lemma PartitionHolds(inputs: bool, events: seq<Event>, groups: seq<Group>, owners: map<string, nat>,
    ignored: seq<string>)
    requires Unique(events) && HoldClaims(PASSES, inputs, events, groups)
    requires forall e :: e in events ==> !ClaimedTwice(e)
    requires forall i, k :: At(groups, i, k) ==> IdIn(groups, i, k) in owners && owners[IdIn(groups, i, k)] == i
    requires forall id :: id in owners ==> exists i, k :: At(groups, i, k) && IdIn(groups, i, k) == id
    requires forall id :: id in ignored <==> exists e :: e in events && e.id == id && OwnerOf(inputs, e).None?
    ensures IsPartition(inputs, events, RunGraph(groups, owners, ignored))
  {
    forall e | e in events
      ensures OwnerOf(inputs, e).Some? <==> e.id in owners
      ensures e.id in owners ==> owners[e.id] < |groups| && e in groups[owners[e.id]].members
                                 && groups[owners[e.id]].owner == OwnerOf(inputs, e).value
    {
      OwnersPartition(inputs, events, groups, owners, e);
    }
    forall e | e in events ensures e.id in ignored <==> OwnerOf(inputs, e).None? {
      if e.id in ignored {
        var f :| f in events && f.id == e.id && OwnerOf(inputs, f).None?;
        assert f == e;
      }
    }
    forall id | id in owners ensures exists e :: e in events && e.id == id {
      var i, k :| At(groups, i, k) && IdIn(groups, i, k) == id;
      assert groups[i].members[k] in groups[i].members;
    }
    forall i, j | 0 <= i < j < |groups| ensures groups[i].owner != groups[j].owner {
      OwnersDiffer(inputs, events, groups, i, j);
    }
    forall i, e | 0 <= i < |groups| && e in groups[i].members
      ensures e in events && e.id in owners && owners[e.id] == i
    {
      var k :| 0 <= k < |groups[i].members| && groups[i].members[k] == e;
      assert At(groups, i, k) && IdIn(groups, i, k) == e.id;
    }
  }
}

/**
 * The session dispatch protocol: one bus, one run loop, one lock per session, pending queues for
 * mid-turn injection and deferred queues for automation turns. A step is what runs between two
 * points where the event loop can switch tasks.
 */
module Dispatch {
  import opened Wrappers

  const PENDING_QUEUE_SIZE := 20

  type TaskId = nat
  type Session = string

  /** How the run loop treats a message's text before it looks at the session. */
  datatype Command = Plain | Dispatchable | Priority | RuntimeControl

  /** `session` is the effective key, which survives being put back on the bus. */
  datatype Inbound = Inbound(id: nat, session: Session, deferrable: bool, command: Command)

  /**
   * Waiting: created, not holding the lock. Locked: holds the lock, waits for the gate.
   * Running: has published its pending queue. Draining: has taken the queue back and returns
   * leftovers to the bus. Releasing: has published the next deferred turn.
   */
  datatype Phase = Waiting | Locked | Running | Draining | Releasing

  datatype Task = Task(msg: Inbound, phase: Phase)

  /** `Direct` stands for `process_direct`, which shares the lock but publishes no queue. */
  datatype Holder = ByTask(task: TaskId) | Direct

  datatype State = State(
    bus: seq<Inbound>,
    hand: Option<Inbound>,
    tasks: map<TaskId, Task>,
    locks: map<Session, Holder>,
    pendingQueues: map<Session, TaskId>,
    queues: map<TaskId, seq<Inbound>>,
    deferred: map<Session, seq<Inbound>>,
    consumed: set<Inbound>,
    published: set<Inbound>
  )

  datatype Action =
    | Publish(msg: Inbound)
    | Consume
    | Route(task: TaskId)
    | Spawn(msg: Inbound, task: TaskId)
    | AcquireLock(task: TaskId)
    | Start(task: TaskId)
    | Inject(task: TaskId)
    | Finish(task: TaskId)
    | DrainOne(task: TaskId)
    | PublishDeferred(task: TaskId)
    | Release(task: TaskId)
    | DirectAcquire(session: Session)
    | DirectRelease(session: Session)

  const Initial := State([], None, map[], map[], map[], map[], map[], {}, {})

  predicate HasPhase(st: State, t: TaskId, phase: Phase) {
    t in st.tasks && st.tasks[t].phase == phase
  }

  predicate Fresh(st: State, m: Inbound) {
    m !in st.published
  }

  /** When an action can happen. A routing step may need a task id nobody has used. */
  predicate Enabled(st: State, a: Action) {
    match a
    case Publish(m) => Fresh(st, m)
    case Consume => st.hand.None? && st.bus != []
    case Route(t) => st.hand.Some? && t !in st.tasks
    case Spawn(m, t) => Fresh(st, m) && t !in st.tasks
    case AcquireLock(t) => HasPhase(st, t, Waiting) && st.tasks[t].msg.session !in st.locks
    case Start(t) => HasPhase(st, t, Locked)
    case Inject(t) => HasPhase(st, t, Running) && t in st.queues && st.queues[t] != []
    case Finish(t) => HasPhase(st, t, Running)
    case DrainOne(t) => HasPhase(st, t, Draining) && t in st.queues && st.queues[t] != []
    case PublishDeferred(t) => HasPhase(st, t, Draining) && t in st.queues && st.queues[t] == []
    case Release(t) => HasPhase(st, t, Releasing)
    case DirectAcquire(s) => s !in st.locks
    case DirectRelease(s) => s in st.locks && st.locks[s].Direct?
  }

  function SetPhase(st: State, t: TaskId, phase: Phase): State
    requires t in st.tasks
  {
    st.(tasks := st.tasks[t := st.tasks[t].(phase := phase)])
  }

  function DeferredOf(st: State, s: Session): seq<Inbound> {
    if s in st.deferred then st.deferred[s] else []
  }

  /** The run loop's decisions for the message in hand, up to its next consume. */
  function Routed(st: State, t: TaskId): State
    requires st.hand.Some?
  {
    var m, s := st.hand.value, st.hand.value.session;
    var free := st.(hand := None);
    if m.command.RuntimeControl? || m.command.Priority? then
      free.(consumed := st.consumed + {m})
    else if m.deferrable && s in st.pendingQueues then
      free.(deferred := st.deferred[s := DeferredOf(st, s) + [m]])
    else if s in st.pendingQueues && m.command.Dispatchable? then
      free.(consumed := st.consumed + {m})
    else if s in st.pendingQueues && HasRoom(st, st.pendingQueues[s]) then
      free.(queues := st.queues[st.pendingQueues[s] := st.queues[st.pendingQueues[s]] + [m]])
    else
      free.(tasks := st.tasks[t := Task(m, Waiting)])
  }

  predicate HasRoom(st: State, owner: TaskId) {
    owner in st.queues && |st.queues[owner]| < PENDING_QUEUE_SIZE
  }

  /** `publish_next_deferred_turn`. */
  function NextDeferredPublished(st: State, s: Session): State {
    if DeferredOf(st, s) == [] then st
    else
      var queue := st.deferred[s];
      var rest := if |queue| == 1 then st.deferred - {s} else st.deferred[s := queue[1..]];
      st.(deferred := rest, bus := st.bus + [queue[0]])
  }

  function Apply(st: State, a: Action): State
    requires Enabled(st, a)
  {
    match a
    case Publish(m) => st.(bus := st.bus + [m], published := st.published + {m})
    case Consume => st.(bus := st.bus[1..], hand := Some(st.bus[0]))
    case Route(t) => Routed(st, t)
    case Spawn(m, t) => st.(tasks := st.tasks[t := Task(m, Waiting)], published := st.published + {m})
    case AcquireLock(t) => SetPhase(st, t, Locked).(locks := st.locks[st.tasks[t].msg.session := ByTask(t)])
    case Start(t) =>
      SetPhase(st, t, Running).(queues := st.queues[t := []],
                                pendingQueues := st.pendingQueues[st.tasks[t].msg.session := t])
    case Inject(t) => st.(queues := st.queues[t := st.queues[t][1..]], consumed := st.consumed + {st.queues[t][0]})
    case Finish(t) =>
      var s := st.tasks[t].msg.session;
      var rest := if s in st.pendingQueues && st.pendingQueues[s] == t then st.pendingQueues - {s}
        else st.pendingQueues;
      SetPhase(st, t, Draining).(pendingQueues := rest, consumed := st.consumed + {st.tasks[t].msg})
    case DrainOne(t) => st.(queues := st.queues[t := st.queues[t][1..]], bus := st.bus + [st.queues[t][0]])
    case PublishDeferred(t) =>
      SetPhase(NextDeferredPublished(st, st.tasks[t].msg.session), t, Releasing).(queues := st.queues - {t})
    case Release(t) => st.(tasks := st.tasks - {t}, locks := st.locks - {st.tasks[t].msg.session})
    case DirectAcquire(s) => st.(locks := st.locks[s := Direct])
    case DirectRelease(s) => st.(locks := st.locks - {s})
  }

  /** The state an interleaving leads to; None when some action is not enabled in its turn. */
  function After(actions: seq<Action>): Option<State> {
    if actions == [] then Some(Initial)
    else
      var last := actions[|actions| - 1];
      match After(actions[..|actions| - 1])
      case None => None
      case Some(st) => if Enabled(st, last) then Some(Apply(st, last)) else None
  }

  /** A run is a chain of enabled steps from the empty state. */
  lemma {:induction false} RunsAreChains(actions: seq<Action>) returns (states: seq<State>)
    requires After(actions).Some?
    ensures IsChain(actions, states) && states[|actions|] == After(actions).value
  {
    if actions == [] {
      states := [Initial];
    } else {
      var n := |actions| - 1;
      states := RunsAreChains(actions[..n]);
      ChainGrows(actions[..n], states, actions[n]);
      assert actions == actions[..n] + [actions[n]];
      states := states + [Apply(states[n], actions[n])];
    }
  }

  /** Each action is enabled in its state and leads to the next one. */
  ghost predicate IsChain(actions: seq<Action>, states: seq<State>) {
    && |states| == |actions| + 1 && states[0] == State([], None, map[], map[], map[], map[], map[], {}, {})
    && forall i :: 0 <= i < |actions| ==>
         Enabled(states[i], actions[i]) && states[i + 1] == Apply(states[i], actions[i])
  }

  lemma ChainGrows(actions: seq<Action>, states: seq<State>, a: Action)
    requires IsChain(actions, states) && Enabled(states[|actions|], a)
    ensures IsChain(actions + [a], states + [Apply(states[|actions|], a)])
  {
    var grown, after := actions + [a], states + [Apply(states[|actions|], a)];
    forall i | 0 <= i < |grown| ensures Enabled(after[i], grown[i]) && after[i + 1] == Apply(after[i], grown[i]) {
      assert i < |actions| ==> grown[i] == actions[i] && after[i] == states[i] && after[i + 1] == states[i + 1];
    }
  }

  /** And every such chain is a run; the empty one is. */
  lemma {:induction false} ChainsAreRuns(actions: seq<Action>, states: seq<State>)
    requires IsChain(actions, states)
    ensures After(actions) == Some(states[|actions|])
  {
    if actions != [] {
      var n := |actions| - 1;
      assert forall i :: 0 <= i < n ==> actions[..n][i] == actions[i];
      ChainsAreRuns(actions[..n], states[..n + 1]);
    }
  }

  // ---- Steps by what they touch ----

  /** A step that may create one waiting task and touches no other task, lock or published queue. */
  ghost predicate AddsAtMost(st: State, next: State, t: TaskId, m: Inbound) {
    && next.locks == st.locks && next.pendingQueues == st.pendingQueues && t !in st.tasks
    && (next.tasks == st.tasks || next.tasks == st.tasks[t := Task(m, Waiting)])
  }

  lemma RoutingAdds(st: State, t: TaskId)
    requires Enabled(st, Route(t))
    ensures AddsAtMost(st, Apply(st, Route(t)), t, st.hand.value)
  {
  }

  /** Routing appends to the queue of a session's owner, or touches no queue. */
  lemma RoutingQueues(st: State, t: TaskId)
    requires Enabled(st, Route(t))
    ensures var next := Apply(st, Route(t));
            || next.queues == st.queues
            || exists o :: o in st.queues && |st.queues[o]| < PENDING_QUEUE_SIZE
                           && st.hand.value.session in st.pendingQueues && o == st.pendingQueues[st.hand.value.session]
                           && next.queues == st.queues[o := st.queues[o] + [st.hand.value]]
  {
  }

  lemma SpawningAdds(st: State, a: Action)
    requires Enabled(st, a) && a.Spawn?
    ensures AddsAtMost(st, Apply(st, a), a.task, a.msg)
  {
  }

  // ---- Locks and queues ----

  predicate InCriticalSection(st: State, t: TaskId) {
    t in st.tasks && !st.tasks[t].phase.Waiting?
  }

  /** The lock of a session is held by exactly the task inside its critical section. */
  ghost predicate LocksMatch(st: State) {
    && (forall t :: InCriticalSection(st, t) ==>
          st.tasks[t].msg.session in st.locks && st.locks[st.tasks[t].msg.session] == ByTask(t))
    && (forall s :: s in st.locks && st.locks[s].ByTask? ==>
          InCriticalSection(st, st.locks[s].task) && st.tasks[st.locks[s].task].msg.session == s)
  }

  /** A published queue belongs to the running task of its session, and conversely. */
  ghost predicate PublishedMatch(st: State) {
    && (forall s :: s in st.pendingQueues ==>
          HasPhase(st, st.pendingQueues[s], Running) && st.tasks[st.pendingQueues[s]].msg.session == s)
    && (forall t :: HasPhase(st, t, Running) ==>
          st.tasks[t].msg.session in st.pendingQueues && st.pendingQueues[st.tasks[t].msg.session] == t)
  }

  /** A queue object lives while its task runs and drains, and is never over its capacity. */
  ghost predicate QueuesMatch(st: State) {
    forall t :: if HasPhase(st, t, Running) || HasPhase(st, t, Draining)
                then t in st.queues && |st.queues[t]| <= PENDING_QUEUE_SIZE
                else t !in st.queues
  }

  lemma LockHandover(st: State, a: Action)
    requires LocksMatch(st) && Enabled(st, a) && (a.AcquireLock? || a.Release?)
    ensures LocksMatch(Apply(st, a))
  {
    assert forall t :: InCriticalSection(st, t) ==> st.locks[st.tasks[t].msg.session] == ByTask(t);
  }

  lemma LocksStep(st: State, a: Action)
    requires LocksMatch(st) && Enabled(st, a)
    ensures LocksMatch(Apply(st, a))
  {
    if a.AcquireLock? || a.Release? {
      LockHandover(st, a);
    } else if a.Route? || a.Spawn? {
      NewTaskKeepsLocks(st, a);
    } else if a.Start? || a.Finish? || a.PublishDeferred? {
      PhaseKeepsLocks(st, a);
    }
  }

  lemma NewTaskKeepsLocks(st: State, a: Action)
    requires LocksMatch(st) && Enabled(st, a) && (a.Route? || a.Spawn?)
    ensures LocksMatch(Apply(st, a))
  {
    if a.Route? {
      RoutingAdds(st, a.task);
    } else {
      SpawningAdds(st, a);
    }
    WaitingKeepsLocks(st, Apply(st, a), a.task, if a.Route? then st.hand.value else a.msg);
  }

  lemma WaitingKeepsLocks(st: State, next: State, t: TaskId, m: Inbound)
    requires LocksMatch(st) && AddsAtMost(st, next, t, m)
    ensures LocksMatch(next)
  {
    assert forall u :: InCriticalSection(next, u) <==> InCriticalSection(st, u);
  }

  lemma PhaseKeepsLocks(st: State, a: Action)
    requires LocksMatch(st) && Enabled(st, a) && (a.Start? || a.Finish? || a.PublishDeferred?)
    ensures LocksMatch(Apply(st, a))
  {
  }

  lemma QueueHandover(st: State, a: Action)
    requires LocksMatch(st) && PublishedMatch(st) && Enabled(st, a) && (a.Start? || a.Finish?)
    ensures PublishedMatch(Apply(st, a))
  {
    assert InCriticalSection(st, a.task);
    assert forall t :: HasPhase(st, t, Running) ==> InCriticalSection(st, t);
  }

  lemma PublishedStep(st: State, a: Action)
    requires LocksMatch(st) && PublishedMatch(st) && Enabled(st, a)
    ensures PublishedMatch(Apply(st, a))
  {
    if a.Start? || a.Finish? {
      QueueHandover(st, a);
    } else if a.AcquireLock? || a.PublishDeferred? || a.Release? {
      OtherPhaseKeepsPublished(st, a);
    } else if a.Route? || a.Spawn? {
      NewTaskKeepsPublished(st, a);
    }
  }

  lemma OtherPhaseKeepsPublished(st: State, a: Action)
    requires PublishedMatch(st) && Enabled(st, a) && (a.AcquireLock? || a.PublishDeferred? || a.Release?)
    ensures PublishedMatch(Apply(st, a))
  {
  }

  lemma NewTaskKeepsPublished(st: State, a: Action)
    requires PublishedMatch(st) && Enabled(st, a) && (a.Route? || a.Spawn?)
    ensures PublishedMatch(Apply(st, a))
  {
    if a.Route? {
      RoutingAdds(st, a.task);
    } else {
      SpawningAdds(st, a);
    }
    WaitingKeepsPublished(st, Apply(st, a), a.task, if a.Route? then st.hand.value else a.msg);
  }

  lemma WaitingKeepsPublished(st: State, next: State, t: TaskId, m: Inbound)
    requires PublishedMatch(st) && AddsAtMost(st, next, t, m)
    ensures PublishedMatch(next)
  {
    assert forall u :: HasPhase(next, u, Running) <==> HasPhase(st, u, Running);
  }

  lemma QueuesStep(st: State, a: Action)
    requires PublishedMatch(st) && QueuesMatch(st) && Enabled(st, a)
    ensures QueuesMatch(Apply(st, a))
  {
    if a.Start? || a.Finish? || a.Inject? || a.DrainOne? {
      QueueOwnerStep(st, a);
    } else if a.Route? {
      RouteKeepsQueues(st, a);
    }
  }

  lemma QueueOwnerStep(st: State, a: Action)
    requires PublishedMatch(st) && QueuesMatch(st) && Enabled(st, a)
             && (a.Start? || a.Finish? || a.Inject? || a.DrainOne?)
    ensures QueuesMatch(Apply(st, a))
  {
  }

  lemma RouteKeepsQueues(st: State, a: Action)
    requires PublishedMatch(st) && QueuesMatch(st) && Enabled(st, a) && a.Route?
    ensures QueuesMatch(Apply(st, a))
  {
    RoutingAdds(st, a.task);
    RoutingQueues(st, a.task);
    WaitingKeepsQueues(st, Apply(st, a), a.task, st.hand.value);
  }

  lemma WaitingKeepsQueues(st: State, next: State, t: TaskId, m: Inbound)
    requires QueuesMatch(st) && AddsAtMost(st, next, t, m)
    requires forall u :: u in next.queues <==> u in st.queues
    requires forall u :: u in next.queues && next.queues[u] != st.queues[u] ==> |next.queues[u]| <= PENDING_QUEUE_SIZE
    ensures QueuesMatch(next)
  {
    forall u ensures if HasPhase(next, u, Running) || HasPhase(next, u, Draining)
                     then u in next.queues && |next.queues[u]| <= PENDING_QUEUE_SIZE
                     else u !in next.queues
    {
      assert HasPhase(next, u, Running) == HasPhase(st, u, Running);
      assert HasPhase(next, u, Draining) == HasPhase(st, u, Draining);
    }
  }

  /** Nothing, its head taken away, or one message put behind it: no queue is ever reordered. */
  ghost predicate IsFifoStep(before: seq<Inbound>, after: seq<Inbound>) {
    || after == before || (before != [] && after == before[1..])
    || (|after| == |before| + 1 && before <= after)
  }

  /** The bus, every pending queue and every deferred queue are first in, first out. */
  lemma QueuesAreFifo(st: State, a: Action)
    requires PublishedMatch(st) && QueuesMatch(st) && Enabled(st, a)
    ensures var next := Apply(st, a);
            && IsFifoStep(st.bus, next.bus)
            && (forall t :: t in next.queues ==>
                  IsFifoStep(if t in st.queues then st.queues[t] else [], next.queues[t]))
            && forall s :: IsFifoStep(DeferredOf(st, s), DeferredOf(next, s))
  {
    if a.Start? {
      assert HasPhase(st, a.task, Locked) && a.task !in st.queues by {
        assert !HasPhase(st, a.task, Running) && !HasPhase(st, a.task, Draining);
      }
    } else if a.Route? {
      RoutedQueuesAreFifo(st, a.task);
      DeferralsAreFifo(st, a.task);
    }
  }

  lemma RoutedQueuesAreFifo(st: State, t: TaskId)
    requires Enabled(st, Route(t))
    ensures var next := Apply(st, Route(t));
            forall u :: u in next.queues ==> IsFifoStep(if u in st.queues then st.queues[u] else [], next.queues[u])
  {
    RoutingQueues(st, t);
  }

  lemma DeferralsAreFifo(st: State, t: TaskId)
    requires Enabled(st, Route(t))
    ensures Apply(st, Route(t)).bus == st.bus
    ensures forall s :: IsFifoStep(DeferredOf(st, s), DeferredOf(Apply(st, Route(t)), s))
  {
  }

  // ---- Every message is in exactly one place ----

  datatype Place = OnBus | InHand | OfTask(task: TaskId) | InQueue(task: TaskId) | Deferred(session: Session) | Consumed

  predicate At(st: State, m: Inbound, p: Place) {
    match p
    case OnBus => m in st.bus
    case InHand => st.hand == Some(m)
    case OfTask(t) =>
      && t in st.tasks && st.tasks[t].msg == m
      && (st.tasks[t].phase.Waiting? || st.tasks[t].phase.Locked? || st.tasks[t].phase.Running?)
    case InQueue(t) => t in st.queues && m in st.queues[t]
    case Deferred(s) => m in DeferredOf(st, s)
    case Consumed => m in st.consumed
  }

  /** `where` says where each published message is, and it is nowhere else. */
  ghost predicate Placed(st: State, where: map<Inbound, Place>) {
    && where.Keys == st.published
    && forall m, p :: At(st, m, p) <==> m in where && where[m] == p
  }

  ghost predicate AllDistinct(st: State) {
    && Distinct(st.bus)
    && (forall t :: t in st.queues ==> Distinct(st.queues[t]))
    && (forall s :: s in st.deferred ==> Distinct(st.deferred[s]))
  }

  /** A step that puts `m` at `p` and leaves every other message where it was. */
  ghost predicate Moves(st: State, next: State, m: Inbound, p: Place) {
    && next.published == st.published + {m}
    && forall x, q :: At(next, x, q) <==> if x == m then q == p else At(st, x, q)
  }

  lemma Moved(st: State, next: State, where: map<Inbound, Place>, m: Inbound, p: Place)
    requires Placed(st, where) && Moves(st, next, m, p)
    ensures Placed(next, where[m := p])
  {
  }

  lemma TailMembers(s: seq<Inbound>)
    requires s != [] && Distinct(s)
    ensures forall x :: x in s[1..] <==> x in s && x != s[0]
  {
    assert s == [s[0]] + s[1..];
  }

  lemma PublishMoves(st: State, a: Action, where: map<Inbound, Place>)
    requires Placed(st, where) && Enabled(st, a) && (a.Publish? || a.Spawn?)
    ensures Moves(st, Apply(st, a), a.msg, if a.Publish? then OnBus else OfTask(a.task))
  {
    var next := Apply(st, a);
    forall x, q
      ensures At(next, x, q) <==>
                if x == a.msg then q == (if a.Publish? then OnBus else OfTask(a.task)) else At(st, x, q)
    {
      assert At(st, x, q) <==> x in where && where[x] == q;
    }
  }

  lemma ConsumeMoves(st: State, where: map<Inbound, Place>)
    requires Placed(st, where) && AllDistinct(st) && Enabled(st, Consume)
    ensures Moves(st, Apply(st, Consume), st.bus[0], InHand)
  {
    TailMembers(st.bus);
    assert At(st, st.bus[0], OnBus);
    var next := Apply(st, Consume);
    forall x, q ensures At(next, x, q) <==> if x == st.bus[0] then q == InHand else At(st, x, q) {
      assert At(st, x, q) <==> x in where && where[x] == q;
    }
  }

  /** Where the run loop sends the message in hand. */
  function RouteTarget(st: State, t: TaskId): Place
    requires st.hand.Some?
  {
    var m, s := st.hand.value, st.hand.value.session;
    if m.command.RuntimeControl? || m.command.Priority? then Consumed
    else if m.deferrable && s in st.pendingQueues then Deferred(s)
    else if s in st.pendingQueues && m.command.Dispatchable? then Consumed
    else if s in st.pendingQueues && HasRoom(st, st.pendingQueues[s]) then InQueue(st.pendingQueues[s])
    else OfTask(t)
  }

  lemma RouteToWaitingList(st: State, t: TaskId, where: map<Inbound, Place>)
    requires Placed(st, where) && Enabled(st, Route(t))
    requires RouteTarget(st, t).InQueue? || RouteTarget(st, t).Deferred?
    ensures Moves(st, Apply(st, Route(t)), st.hand.value, RouteTarget(st, t))
  {
    assert At(st, st.hand.value, InHand);
    var next := Apply(st, Route(t));
    forall x, q ensures At(next, x, q) <==> if x == st.hand.value then q == RouteTarget(st, t) else At(st, x, q) {
      assert At(st, x, q) <==> x in where && where[x] == q;
    }
  }

  lemma RouteMoves(st: State, t: TaskId, where: map<Inbound, Place>)
    requires Placed(st, where) && Enabled(st, Route(t))
    ensures Moves(st, Apply(st, Route(t)), st.hand.value, RouteTarget(st, t))
  {
    if RouteTarget(st, t).InQueue? || RouteTarget(st, t).Deferred? {
      RouteToWaitingList(st, t, where);
    } else if RouteTarget(st, t).Consumed? {
      RouteToEnd(st, t, where);
    } else {
      RouteToTask(st, t, where);
    }
  }

  lemma RouteToEnd(st: State, t: TaskId, where: map<Inbound, Place>)
    requires Placed(st, where) && Enabled(st, Route(t)) && RouteTarget(st, t).Consumed?
    ensures Moves(st, Apply(st, Route(t)), st.hand.value, RouteTarget(st, t))
  {
    assert At(st, st.hand.value, InHand);
    var next := Apply(st, Route(t));
    forall x, q ensures At(next, x, q) <==> if x == st.hand.value then q == Consumed else At(st, x, q) {
      assert At(st, x, q) <==> x in where && where[x] == q;
    }
  }

  lemma RoutedToTask(st: State, t: TaskId)
    requires Enabled(st, Route(t)) && RouteTarget(st, t) == OfTask(t)
    ensures Apply(st, Route(t)) == st.(hand := None, tasks := st.tasks[t := Task(st.hand.value, Waiting)])
  {
  }

  lemma RouteToTask(st: State, t: TaskId, where: map<Inbound, Place>)
    requires Placed(st, where) && Enabled(st, Route(t)) && RouteTarget(st, t) == OfTask(t)
    ensures Moves(st, Apply(st, Route(t)), st.hand.value, OfTask(t))
  {
    assert At(st, st.hand.value, InHand);
    var next := Apply(st, Route(t));
    RoutedToTask(st, t);
    forall x, q ensures At(next, x, q) <==> if x == st.hand.value then q == OfTask(t) else At(st, x, q) {
      assert At(st, x, q) <==> x in where && where[x] == q;
    }
  }

  lemma QueueHeadMoves(st: State, a: Action, where: map<Inbound, Place>)
    requires Placed(st, where) && AllDistinct(st) && Enabled(st, a) && (a.Inject? || a.DrainOne?)
    ensures Moves(st, Apply(st, a), st.queues[a.task][0], if a.Inject? then Consumed else OnBus)
  {
    TailMembers(st.queues[a.task]);
    assert At(st, st.queues[a.task][0], InQueue(a.task));
    var next := Apply(st, a);
    forall x, q
      ensures At(next, x, q) <==>
                if x == st.queues[a.task][0] then q == (if a.Inject? then Consumed else OnBus) else At(st, x, q)
    {
      assert At(st, x, q) <==> x in where && where[x] == q;
    }
  }

  lemma FinishMoves(st: State, t: TaskId, where: map<Inbound, Place>)
    requires Placed(st, where) && Enabled(st, Finish(t))
    ensures Moves(st, Apply(st, Finish(t)), st.tasks[t].msg, Consumed)
  {
    assert At(st, st.tasks[t].msg, OfTask(t));
    var next := Apply(st, Finish(t));
    forall x, q ensures At(next, x, q) <==> if x == st.tasks[t].msg then q == Consumed else At(st, x, q) {
      assert At(st, x, q) <==> x in where && where[x] == q;
    }
  }

  lemma PublishDeferredMoves(st: State, t: TaskId, where: map<Inbound, Place>)
    requires Placed(st, where) && AllDistinct(st) && Enabled(st, PublishDeferred(t))
    requires DeferredOf(st, st.tasks[t].msg.session) != []
    ensures Moves(st, Apply(st, PublishDeferred(t)), st.deferred[st.tasks[t].msg.session][0], OnBus)
  {
    var s := st.tasks[t].msg.session;
    TailMembers(st.deferred[s]);
    assert At(st, st.deferred[s][0], Deferred(s));
    var next := Apply(st, PublishDeferred(t));
    forall x, q ensures At(next, x, q) <==> if x == st.deferred[s][0] then q == OnBus else At(st, x, q) {
      assert At(st, x, q) <==> x in where && where[x] == q;
    }
  }

  /** These steps move no message. */
  predicate IsQuiet(st: State, a: Action)
    requires Enabled(st, a)
  {
    a.AcquireLock? || a.Start? || a.Release? || a.DirectAcquire? || a.DirectRelease? ||
    (a.PublishDeferred? && DeferredOf(st, st.tasks[a.task].msg.session) == [])
  }

  lemma QuietMovesNothing(st: State, a: Action, where: map<Inbound, Place>)
    requires Placed(st, where) && QueuesMatch(st) && Enabled(st, a) && IsQuiet(st, a)
    ensures Placed(Apply(st, a), where)
  {
    match a
    case AcquireLock(t) => AcquireMovesNothing(st, t, where);
    case Start(t) => StartMovesNothing(st, t, where);
    case Release(t) => ReleaseMovesNothing(st, t, where);
    case PublishDeferred(t) => ClosingMovesNothing(st, t, where);
    case DirectAcquire(_) => assert forall m, p :: At(Apply(st, a), m, p) <==> At(st, m, p);
    case DirectRelease(_) => assert forall m, p :: At(Apply(st, a), m, p) <==> At(st, m, p);
  }

  lemma AcquireMovesNothing(st: State, t: TaskId, where: map<Inbound, Place>)
    requires Placed(st, where) && Enabled(st, AcquireLock(t))
    ensures Placed(Apply(st, AcquireLock(t)), where)
  {
    forall m, p ensures At(Apply(st, AcquireLock(t)), m, p) <==> At(st, m, p) {
    }
  }

  lemma StartMovesNothing(st: State, t: TaskId, where: map<Inbound, Place>)
    requires Placed(st, where) && QueuesMatch(st) && Enabled(st, Start(t))
    ensures Placed(Apply(st, Start(t)), where)
  {
    assert t !in st.queues by {
      assert !HasPhase(st, t, Running) && !HasPhase(st, t, Draining);
    }
    forall m, p ensures At(Apply(st, Start(t)), m, p) <==> At(st, m, p) {
    }
  }

  lemma ReleaseMovesNothing(st: State, t: TaskId, where: map<Inbound, Place>)
    requires Placed(st, where) && Enabled(st, Release(t))
    ensures Placed(Apply(st, Release(t)), where)
  {
    forall m, p ensures At(Apply(st, Release(t)), m, p) <==> At(st, m, p) {
    }
  }

  lemma ClosingMovesNothing(st: State, t: TaskId, where: map<Inbound, Place>)
    requires Placed(st, where) && Enabled(st, PublishDeferred(t)) && IsQuiet(st, PublishDeferred(t))
    ensures Placed(Apply(st, PublishDeferred(t)), where)
  {
    forall m, p ensures At(Apply(st, PublishDeferred(t)), m, p) <==> At(st, m, p) {
    }
  }

  lemma PlacedStep(st: State, a: Action, where: map<Inbound, Place>) returns (where': map<Inbound, Place>)
    requires Placed(st, where) && AllDistinct(st) && QueuesMatch(st) && Enabled(st, a)
    ensures Placed(Apply(st, a), where')
  {
    if IsQuiet(st, a) {
      QuietMovesNothing(st, a, where);
      return where;
    }
    var m, p := MovedMessage(st, a), MoveTarget(st, a);
    match a {
      case Publish(_) => PublishMoves(st, a, where);
      case Spawn(_, _) => PublishMoves(st, a, where);
      case Consume => ConsumeMoves(st, where);
      case Route(t) => RouteMoves(st, t, where);
      case Inject(_) => QueueHeadMoves(st, a, where);
      case DrainOne(_) => QueueHeadMoves(st, a, where);
      case Finish(t) => FinishMoves(st, t, where);
      case PublishDeferred(t) => PublishDeferredMoves(st, t, where);
    }
    Moved(st, Apply(st, a), where, m, p);
    where' := where[m := p];
  }

  function MovedMessage(st: State, a: Action): Inbound
    requires Enabled(st, a) && !IsQuiet(st, a)
  {
    match a
    case Publish(m) => m
    case Spawn(m, _) => m
    case Consume => st.bus[0]
    case Route(_) => st.hand.value
    case Inject(t) => st.queues[t][0]
    case DrainOne(t) => st.queues[t][0]
    case Finish(t) => st.tasks[t].msg
    case PublishDeferred(t) => st.deferred[st.tasks[t].msg.session][0]
  }

  function MoveTarget(st: State, a: Action): Place
    requires Enabled(st, a) && !IsQuiet(st, a)
  {
    match a
    case Publish(_) => OnBus
    case Spawn(_, t) => OfTask(t)
    case Consume => InHand
    case Route(t) => RouteTarget(st, t)
    case Inject(_) => Consumed
    case DrainOne(_) => OnBus
    case Finish(_) => Consumed
    case PublishDeferred(_) => OnBus
  }

  lemma RoutingKeepsDistinct(st: State, t: TaskId, where: map<Inbound, Place>)
    requires Placed(st, where) && AllDistinct(st) && Enabled(st, Route(t))
    ensures AllDistinct(Apply(st, Route(t)))
  {
    var m, next := st.hand.value, Apply(st, Route(t));
    assert At(st, m, InHand);
    forall u | u in next.queues ensures Distinct(next.queues[u]) {
      RoutingQueues(st, t);
      assert u in st.queues && !At(st, m, InQueue(u));
    }
    forall s | s in next.deferred ensures Distinct(next.deferred[s]) {
      assert !At(st, m, Deferred(s));
      RoutingDefers(st, t, s);
    }
  }

  lemma RoutingDefers(st: State, t: TaskId, s: Session)
    requires Enabled(st, Route(t)) && s in Apply(st, Route(t)).deferred
    ensures var next := Apply(st, Route(t)).deferred[s];
            || (s in st.deferred && next == st.deferred[s])
            || (s == st.hand.value.session && WillDispatch(st.hand.value)
               && next == DeferredOf(st, s) + [st.hand.value])
  {
  }

  lemma PublishingKeepsDistinct(st: State, t: TaskId, where: map<Inbound, Place>)
    requires Placed(st, where) && AllDistinct(st) && Enabled(st, PublishDeferred(t))
    ensures AllDistinct(Apply(st, PublishDeferred(t)))
  {
    var s := st.tasks[t].msg.session;
    if DeferredOf(st, s) != [] {
      assert At(st, st.deferred[s][0], Deferred(s)) && !At(st, st.deferred[s][0], OnBus);
    }
  }

  lemma DistinctStep(st: State, a: Action, where: map<Inbound, Place>)
    requires Placed(st, where) && AllDistinct(st) && Enabled(st, a)
    ensures AllDistinct(Apply(st, a))
  {
    match a
    case Route(t) => RoutingKeepsDistinct(st, t, where);
    case PublishDeferred(t) => PublishingKeepsDistinct(st, t, where);
    case Publish(m) => assert !At(st, m, OnBus);
    case DrainOne(t) => assert At(st, st.queues[t][0], InQueue(t)) && !At(st, st.queues[t][0], OnBus);
    case _ =>
  }

  // ---- No deferred turn is stranded ----

  /** A turn the run loop may defer and will never handle as a command. */
  predicate WillDispatch(m: Inbound) {
    m.deferrable && !m.command.RuntimeControl? && !m.command.Priority?
  }

  ghost predicate DeferredMatch(st: State) {
    forall s :: s in st.deferred ==>
      st.deferred[s] != [] && forall m :: m in st.deferred[s] ==> m.session == s && WillDispatch(m)
  }

  lemma PublishingKeepsDeferred(st: State, t: TaskId)
    requires DeferredMatch(st) && Enabled(st, PublishDeferred(t))
    ensures DeferredMatch(Apply(st, PublishDeferred(t)))
  {
  }

  lemma DeferredStep(st: State, a: Action)
    requires DeferredMatch(st) && Enabled(st, a)
    ensures DeferredMatch(Apply(st, a))
  {
    if a.PublishDeferred? {
      PublishingKeepsDeferred(st, a.task);
    } else if a.Route? {
      RoutingKeepsDeferred(st, a.task);
    }
  }

  lemma RoutingKeepsDeferred(st: State, t: TaskId)
    requires DeferredMatch(st) && Enabled(st, Route(t))
    ensures DeferredMatch(Apply(st, Route(t)))
  {
    var next := Apply(st, Route(t));
    forall s | s in next.deferred
      ensures next.deferred[s] != [] && forall m :: m in next.deferred[s] ==> m.session == s && WillDispatch(m)
    {
      RoutingDefers(st, t, s);
    }
  }

  /** A task that has not yet published its next deferred turn. */
  predicate WillPublish(st: State, t: TaskId, s: Session) {
    t in st.tasks && st.tasks[t].msg.session == s && !st.tasks[t].phase.Releasing?
  }

  predicate WillBeRouted(st: State, m: Inbound, s: Session) {
    (m in st.bus || st.hand == Some(m)) && m.session == s && WillDispatch(m)
  }

  ghost predicate NotStranded(st: State, s: Session) {
    (exists t :: WillPublish(st, t, s)) || (exists m :: WillBeRouted(st, m, s))
  }

  ghost predicate NoneStranded(st: State) {
    forall s :: s in st.deferred ==> NotStranded(st, s)
  }

  lemma RoutingActiveSession(st: State, t: TaskId, s: Session)
    requires PublishedMatch(st) && Enabled(st, Route(t)) && s in st.pendingQueues
    ensures NotStranded(Apply(st, Route(t)), s)
  {
    assert HasPhase(st, st.pendingQueues[s], Running);
    assert WillPublish(Apply(st, Route(t)), st.pendingQueues[s], s);
  }

  lemma RoutingIdleSession(st: State, t: TaskId, s: Session, x: Inbound)
    requires Enabled(st, Route(t)) && s !in st.pendingQueues && WillBeRouted(st, x, s)
    ensures NotStranded(Apply(st, Route(t)), s)
  {
    var next := Apply(st, Route(t));
    assert WillBeRouted(next, x, s) || WillPublish(next, t, s);
  }

  lemma RoutingStrandsNone(st: State, t: TaskId, s: Session)
    requires PublishedMatch(st) && NoneStranded(st) && Enabled(st, Route(t)) && s in Apply(st, Route(t)).deferred
    ensures NotStranded(Apply(st, Route(t)), s)
  {
    var next := Apply(st, Route(t));
    if s in st.pendingQueues {
      RoutingActiveSession(st, t, s);
    } else {
      RoutingDefers(st, t, s);
      RoutingAdds(st, t);
      if u :| WillPublish(st, u, s) {
        assert WillPublish(next, u, s);
      } else {
        assert s in st.deferred && NotStranded(st, s) by {
          assert s !in st.pendingQueues;
          IdleIsNotDeferred(st, t, s);
        }
        var x :| WillBeRouted(st, x, s);
        RoutingIdleSession(st, t, s, x);
      }
    }
  }

  lemma IdleIsNotDeferred(st: State, t: TaskId, s: Session)
    requires Enabled(st, Route(t)) && s !in st.pendingQueues && s in Apply(st, Route(t)).deferred
    ensures s in st.deferred
  {
  }

  lemma PublishingStrandsNone(st: State, t: TaskId, s: Session)
    requires DeferredMatch(st) && NoneStranded(st) && Enabled(st, PublishDeferred(t))
    requires s in Apply(st, PublishDeferred(t)).deferred
    ensures NotStranded(Apply(st, PublishDeferred(t)), s)
  {
    var next := Apply(st, PublishDeferred(t));
    if s == st.tasks[t].msg.session {
      assert WillBeRouted(next, st.deferred[s][0], s);
    } else if u :| WillPublish(st, u, s) {
      assert WillPublish(next, u, s);
    } else {
      var x :| WillBeRouted(st, x, s);
      assert WillBeRouted(next, x, s);
    }
  }

  lemma StrandedStep(st: State, a: Action)
    requires PublishedMatch(st) && DeferredMatch(st) && NoneStranded(st) && Enabled(st, a)
    ensures NoneStranded(Apply(st, a))
  {
    var next := Apply(st, a);
    forall s | s in next.deferred ensures NotStranded(next, s) {
      if a.Route? {
        RoutingStrandsNone(st, a.task, s);
      } else if a.PublishDeferred? {
        PublishingStrandsNone(st, a.task, s);
      } else if u :| WillPublish(st, u, s) {
        assert WillPublish(next, u, s);
      } else {
        var x :| WillBeRouted(st, x, s);
        assert WillBeRouted(next, x, s);
      }
    }
  }

  // ---- What holds in every interleaving ----

  ghost predicate Invariant(st: State) {
    && LocksMatch(st) && PublishedMatch(st) && QueuesMatch(st)
    && AllDistinct(st) && DeferredMatch(st) && NoneStranded(st)
    && exists where: map<Inbound, Place> :: Placed(st, where)
  }

  lemma InitialInvariant()
    ensures Invariant(Initial)
  {
    assert Placed(Initial, map[]);
  }

  lemma InvariantStep(st: State, a: Action)
    requires Invariant(st) && Enabled(st, a)
    ensures Invariant(Apply(st, a))
  {
    var where: map<Inbound, Place> :| Placed(st, where);
    LocksStep(st, a);
    PublishedStep(st, a);
    QueuesStep(st, a);
    DistinctStep(st, a, where);
    DeferredStep(st, a);
    StrandedStep(st, a);
    var where' := PlacedStep(st, a, where);
  }

  lemma {:induction false} ReachableInvariant(actions: seq<Action>)
    requires After(actions).Some?
    ensures Invariant(After(actions).value)
  {
    if actions == [] {
      InitialInvariant();
    } else {
      var before := actions[..|actions| - 1];
      ReachableInvariant(before);
      InvariantStep(After(before).value, actions[|actions| - 1]);
    }
  }

  /** At most one task is inside a session's critical section. */
  lemma {:induction false} MutualExclusion(actions: seq<Action>, t: TaskId, u: TaskId)
    requires After(actions).Some?
    ensures var st := After(actions).value;
            (InCriticalSection(st, t) && InCriticalSection(st, u)
             && st.tasks[t].msg.session == st.tasks[u].msg.session) ==> t == u
  {
    ReachableInvariant(actions);
  }

  /** A session's pending queue exists only while its own task holds the lock and runs. */
  lemma {:induction false} PublishedQueueIsOwnersQueue(actions: seq<Action>, s: Session)
    requires After(actions).Some? && s in After(actions).value.pendingQueues
    ensures var st := After(actions).value;
            var owner := st.pendingQueues[s];
            && s in st.locks && st.locks[s] == ByTask(owner)
            && HasPhase(st, owner, Running) && st.tasks[owner].msg.session == s
            && owner in st.queues && |st.queues[owner]| <= PENDING_QUEUE_SIZE
  {
    ReachableInvariant(actions);
    assert InCriticalSection(After(actions).value, After(actions).value.pendingQueues[s]);
  }

  /** Every message ever published is in exactly one place, once, also after a full queue. */
  lemma {:induction false} ExactlyOnePlace(actions: seq<Action>, m: Inbound)
    requires After(actions).Some? && m in After(actions).value.published
    ensures AllDistinct(After(actions).value)
    ensures exists p :: At(After(actions).value, m, p)
    ensures forall p, q :: At(After(actions).value, m, p) && At(After(actions).value, m, q) ==> p == q
  {
    ReachableInvariant(actions);
    var where: map<Inbound, Place> :| Placed(After(actions).value, where);
    assert At(After(actions).value, m, where[m]);
  }

  /** A deferred turn always has a task that will publish it, or a routable turn before it. */
  lemma {:induction false} NoDeferredTurnIsStranded(actions: seq<Action>, s: Session)
    requires After(actions).Some? && DeferredOf(After(actions).value, s) != []
    ensures var st := After(actions).value;
            || (exists t :: t in st.tasks && st.tasks[t].msg.session == s && !st.tasks[t].phase.Releasing?)
            || exists m :: (m in st.bus || st.hand == Some(m)) && m.session == s && m.deferrable
                           && m.command in {Plain, Dispatchable}
  {
    ReachableInvariant(actions);
    var st := After(actions).value;
    if t :| WillPublish(st, t, s) {
      assert t in st.tasks && st.tasks[t].msg.session == s;
    } else {
      var m :| WillBeRouted(st, m, s);
      assert (m in st.bus || st.hand == Some(m)) && m.session == s;
    }
  }

  // ---- Everything published is eventually consumed ----

  predicate IsQuiescent(st: State) {
    st.bus == [] && st.hand.None? && st.tasks == map[]
  }

  /** When nothing is left to do, no message is left anywhere. */
  lemma QuiescentHasConsumedAll(st: State)
    requires Invariant(st) && IsQuiescent(st)
    ensures st.consumed == st.published && st.deferred == map[] && st.pendingQueues == map[]
  {
    var where: map<Inbound, Place> :| Placed(st, where);
    forall s ensures s !in st.deferred && s !in st.pendingQueues {
    }
    forall m ensures m in st.consumed <==> m in st.published {
      assert At(st, m, Consumed) <==> m in where && where[m] == Consumed;
      if m in where {
        assert At(st, m, where[m]);
      }
    }
  }

  /** Steps of the loop and its tasks, as opposed to arrivals from outside. */
  predicate IsInternal(a: Action) {
    !a.Publish? && !a.Spawn? && !a.DirectAcquire? && !a.DirectRelease?
  }

  function TasksIn(st: State, phase: Phase): set<TaskId> {
    set t | t in st.tasks && st.tasks[t].phase == phase
  }

  /** Messages waiting in the queues of draining tasks. */
  function Leftovers(st: State): set<Inbound> {
    set t, m | t in st.queues && m in st.queues[t] && IsLeftover(st, t, m) :: m
  }

  predicate IsLeftover(st: State, t: TaskId, m: Inbound) {
    HasPhase(st, t, Draining) && t in st.queues && m in st.queues[t]
  }

  lemma SameLeftovers(st: State, next: State)
    requires forall t, m :: IsLeftover(next, t, m) <==> IsLeftover(st, t, m)
    ensures Leftovers(next) == Leftovers(st)
  {
    forall m ensures m in Leftovers(next) <==> m in Leftovers(st) {
      if t :| t in next.queues && IsLeftover(next, t, m) {
        assert IsLeftover(st, t, m);
      }
      if t :| t in st.queues && IsLeftover(st, t, m) {
        assert IsLeftover(next, t, m);
      }
    }
  }

  /** A measure every internal step lowers, first component first. */
  datatype Rank = Rank(unconsumed: nat, draining: nat, leftovers: nat, onBus: nat, inHand: nat,
                       waiting: nat, locked: nat, releasing: nat)

  function RankOf(st: State): Rank {
    Rank(|st.published - st.consumed|, |TasksIn(st, Draining)|, |Leftovers(st)|, |st.bus|,
         if st.hand.Some? then 1 else 0,
         |TasksIn(st, Waiting)|, |TasksIn(st, Locked)|, |TasksIn(st, Releasing)|)
  }

  predicate Lower(a: Rank, b: Rank) {
    if a.unconsumed != b.unconsumed then a.unconsumed < b.unconsumed
    else if a.draining != b.draining then a.draining < b.draining
    else if a.leftovers != b.leftovers then a.leftovers < b.leftovers
    else if a.onBus != b.onBus then a.onBus < b.onBus
    else if a.inHand != b.inHand then a.inHand < b.inHand
    else if a.waiting != b.waiting then a.waiting < b.waiting
    else if a.locked != b.locked then a.locked < b.locked
    else a.releasing < b.releasing
  }

  lemma ProperSubsetIsSmaller<T>(a: set<T>, b: set<T>)
    requires a < b
    ensures |a| < |b|
  {
    assert b == a + (b - a) && b - a != {};
  }

  lemma ConsumingLowers(st: State, a: Action, where: map<Inbound, Place>)
    requires Placed(st, where) && AllDistinct(st) && Enabled(st, a) && !IsQuiet(st, a) && IsInternal(a)
    requires MoveTarget(st, a) == Consumed
    ensures |Apply(st, a).published - Apply(st, a).consumed| < |st.published - st.consumed|
  {
    var m := MovedMessage(st, a);
    assert a.Route? ==> At(st, m, InHand);
    assert a.Inject? ==> At(st, m, InQueue(a.task));
    assert a.Finish? ==> At(st, m, OfTask(a.task));
    assert !At(st, m, Consumed);
    assert m in st.published;
    ProperSubsetIsSmaller(Apply(st, a).published - Apply(st, a).consumed, st.published - st.consumed);
  }

  lemma PublishingLowers(st: State, t: TaskId)
    requires Enabled(st, PublishDeferred(t))
    ensures Lower(RankOf(Apply(st, PublishDeferred(t))), RankOf(st))
  {
    assert TasksIn(Apply(st, PublishDeferred(t)), Draining) == TasksIn(st, Draining) - {t};
  }

  lemma DrainingLowers(st: State, t: TaskId, where: map<Inbound, Place>)
    requires Placed(st, where) && AllDistinct(st) && Enabled(st, DrainOne(t))
    ensures Lower(RankOf(Apply(st, DrainOne(t))), RankOf(st))
  {
    var next, m := Apply(st, DrainOne(t)), st.queues[t][0];
    TailMembers(st.queues[t]);
    assert TasksIn(next, Draining) == TasksIn(st, Draining);
    assert m in Leftovers(st) && m !in Leftovers(next) by {
      assert At(st, m, InQueue(t));
      assert forall u :: u in st.queues && m in st.queues[u] ==> At(st, m, InQueue(u));
    }
    assert Leftovers(next) <= Leftovers(st);
    ProperSubsetIsSmaller(Leftovers(next), Leftovers(st));
  }

  lemma RoutingLowers(st: State, t: TaskId)
    requires PublishedMatch(st) && Enabled(st, Route(t)) && RouteTarget(st, t) != Consumed
    ensures Lower(RankOf(Apply(st, Route(t))), RankOf(st))
  {
    var next := Apply(st, Route(t));
    RoutingAdds(st, t);
    assert TasksIn(next, Draining) == TasksIn(st, Draining);
    RoutingKeepsLeftovers(st, t);
    assert next.published == st.published && next.consumed == st.consumed && next.bus == st.bus && next.hand.None?;
  }

  lemma RoutingKeepsLeftovers(st: State, t: TaskId)
    requires PublishedMatch(st) && Enabled(st, Route(t))
    ensures Leftovers(Apply(st, Route(t))) == Leftovers(st)
  {
    var next := Apply(st, Route(t));
    RoutingAdds(st, t);
    RoutingQueues(st, t);
    forall u, m ensures IsLeftover(next, u, m) <==> IsLeftover(st, u, m) {
      assert HasPhase(next, u, Draining) <==> HasPhase(st, u, Draining);
    }
    SameLeftovers(st, next);
  }

  lemma ConsumingHandLowers(st: State)
    requires Enabled(st, Consume)
    ensures Lower(RankOf(Apply(st, Consume)), RankOf(st))
  {
    SameLeftovers(st, Apply(st, Consume));
    assert TasksIn(Apply(st, Consume), Draining) == TasksIn(st, Draining);
  }

  lemma AcquiringLowers(st: State, t: TaskId)
    requires Enabled(st, AcquireLock(t))
    ensures Lower(RankOf(Apply(st, AcquireLock(t))), RankOf(st))
  {
    var next := Apply(st, AcquireLock(t));
    assert TasksIn(next, Draining) == TasksIn(st, Draining);
    SameLeftovers(st, next);
    assert TasksIn(next, Waiting) == TasksIn(st, Waiting) - {t};
  }

  lemma StartingLowers(st: State, t: TaskId)
    requires QueuesMatch(st) && Enabled(st, Start(t))
    ensures Lower(RankOf(Apply(st, Start(t))), RankOf(st))
  {
    var next := Apply(st, Start(t));
    assert TasksIn(next, Draining) == TasksIn(st, Draining);
    SameLeftovers(st, next);
    assert TasksIn(next, Waiting) == TasksIn(st, Waiting);
    assert TasksIn(next, Locked) == TasksIn(st, Locked) - {t};
  }

  lemma ReleasingLowers(st: State, t: TaskId)
    requires Enabled(st, Release(t))
    ensures Lower(RankOf(Apply(st, Release(t))), RankOf(st))
  {
    var next := Apply(st, Release(t));
    assert TasksIn(next, Draining) == TasksIn(st, Draining);
    SameLeftovers(st, next);
    assert TasksIn(next, Waiting) == TasksIn(st, Waiting);
    assert TasksIn(next, Locked) == TasksIn(st, Locked);
    assert TasksIn(next, Releasing) == TasksIn(st, Releasing) - {t};
  }

  /** Without new arrivals no schedule runs forever: each step lowers the rank. */
  lemma InternalStepLowers(st: State, a: Action)
    requires Invariant(st) && Enabled(st, a) && IsInternal(a)
    ensures Lower(RankOf(Apply(st, a)), RankOf(st))
  {
    var where: map<Inbound, Place> :| Placed(st, where);
    if !IsQuiet(st, a) && MoveTarget(st, a) == Consumed {
      ConsumingLowers(st, a, where);
    } else {
      KeepingLowers(st, a, where);
    }
  }

  /** So do the steps that consume no message. */
  lemma KeepingLowers(st: State, a: Action, where: map<Inbound, Place>)
    requires Placed(st, where) && AllDistinct(st) && PublishedMatch(st) && QueuesMatch(st)
    requires Enabled(st, a) && IsInternal(a) && (IsQuiet(st, a) || MoveTarget(st, a) != Consumed)
    ensures Lower(RankOf(Apply(st, a)), RankOf(st))
  {
    match a
    case Consume => ConsumingHandLowers(st);
    case Route(t) => RoutingLowers(st, t);
    case DrainOne(t) => DrainingLowers(st, t, where);
    case PublishDeferred(t) => PublishingLowers(st, t);
    case AcquireLock(t) => AcquiringLowers(st, t);
    case Start(t) => StartingLowers(st, t);
    case Release(t) => ReleasingLowers(st, t);
  }

  lemma {:induction false} UnusedTaskId(ids: set<TaskId>) returns (t: TaskId)
    ensures forall u :: u in ids ==> u < t
    decreases |ids|
  {
    if ids == {} {
      return 0;
    }
    var u :| u in ids;
    var r := UnusedTaskId(ids - {u});
    t := if u < r then r else u + 1;
    forall v | v in ids ensures v < t {
      assert v == u || v in ids - {u};
    }
  }

  ghost predicate NoDirectHolder(st: State) {
    forall s :: s in st.locks ==> st.locks[s].ByTask?
  }

  /** The protocol does not deadlock: unless all is done, the loop or some task can step. */
  lemma SomeStepIsEnabled(st: State)
    requires Invariant(st) && NoDirectHolder(st) && !IsQuiescent(st)
    ensures exists a :: IsInternal(a) && Enabled(st, a)
  {
    var a;
    if t :| t in st.tasks && !st.tasks[t].phase.Waiting? {
      match st.tasks[t].phase {
        case Locked => a := Start(t);
        case Running => a := Finish(t);
        case Draining => a := if st.queues[t] == [] then PublishDeferred(t) else DrainOne(t);
        case Releasing => a := Release(t);
      }
    } else if t :| t in st.tasks {
      a := AcquireLock(t);
    } else if st.hand.Some? {
      var t := UnusedTaskId(st.tasks.Keys);
      a := Route(t);
    } else {
      a := Consume;
    }
    assert IsInternal(a) && Enabled(st, a);
  }

  ghost predicate AllInternal(actions: seq<Action>) {
    forall a :: a in actions ==> IsInternal(a)
  }

  lemma {:induction false} RunExtends(actions: seq<Action>, a: Action)
    requires After(actions).Some? && Enabled(After(actions).value, a)
    ensures After(actions + [a]) == Some(Apply(After(actions).value, a))
  {
    assert (actions + [a])[..|actions|] == actions;
  }

  lemma InternalKeepsFrame(st: State, a: Action)
    requires Enabled(st, a) && IsInternal(a) && NoDirectHolder(st)
    ensures NoDirectHolder(Apply(st, a)) && Apply(st, a).published == st.published
  {
  }

  lemma Associative(a: seq<Action>, b: seq<Action>, c: seq<Action>)
    ensures a + b + c == a + (b + c)
  {
  }

  /** `rest` adds no arrivals to `actions` and leaves nothing to do. */
  ghost predicate Finishes(actions: seq<Action>, rest: seq<Action>) {
    && AllInternal(rest) && After(actions).Some? && After(actions + rest).Some?
    && IsQuiescent(After(actions + rest).value)
    && After(actions + rest).value.published == After(actions).value.published
  }

  /** Some step of the loop or a task leads on from a state that is not the end, and lowers the rank. */
  lemma ProgressFrom(actions: seq<Action>, st: State) returns (a: Action)
    requires After(actions) == Some(st) && NoDirectHolder(st) && !IsQuiescent(st)
    ensures IsInternal(a) && Enabled(st, a) && Lower(RankOf(Apply(st, a)), RankOf(st))
    ensures NoDirectHolder(Apply(st, a)) && Apply(st, a).published == st.published
    ensures After(actions + [a]) == Some(Apply(st, a))
  {
    ReachableInvariant(actions);
    SomeStepIsEnabled(st);
    a :| IsInternal(a) && Enabled(st, a);
    InternalStepLowers(st, a);
    InternalKeepsFrame(st, a);
    RunExtends(actions, a);
  }

  lemma {:induction false} FinishFrom(actions: seq<Action>, st: State, r: Rank)
    requires After(actions) == Some(st) && NoDirectHolder(st) && r == RankOf(st)
    ensures exists rest :: Finishes(actions, rest)
    decreases r.unconsumed, r.draining, r.leftovers, r.onBus, r.inHand, r.waiting, r.locked, r.releasing
  {
    if IsQuiescent(st) {
      assert actions + [] == actions;
      assert Finishes(actions, []);
    } else {
      var a := ProgressFrom(actions, st);
      FinishFrom(actions + [a], Apply(st, a), RankOf(Apply(st, a)));
      var tail :| Finishes(actions + [a], tail);
      FinishesEarlier(actions, a, st, tail);
    }
  }

  lemma FinishesEarlier(actions: seq<Action>, a: Action, st: State, tail: seq<Action>)
    requires After(actions) == Some(st) && Enabled(st, a) && IsInternal(a) && After(actions + [a]) == Some(Apply(st, a))
    requires Apply(st, a).published == st.published && Finishes(actions + [a], tail)
    ensures Finishes(actions, [a] + tail)
  {
    Associative(actions, [a], tail);
    assert forall i :: 0 < i < |[a] + tail| ==> ([a] + tail)[i] == tail[i - 1];
  }

  /** At the end of `rest` every message ever published is consumed, and no turn is deferred. */
  ghost predicate ConsumesAll(actions: seq<Action>, rest: seq<Action>) {
    && AllInternal(rest) && After(actions).Some? && After(actions + rest).Some?
    && var end := After(actions + rest).value;
       && IsQuiescent(end) && end.deferred == map[]
       && end.consumed == end.published == After(actions).value.published
  }

  /**
   * From every reachable state, without new arrivals and with no direct call holding a lock,
   * the loop and its tasks reach an end where every message is consumed and none is deferred.
   */
  lemma {:induction false} EverythingIsConsumed(actions: seq<Action>)
    requires After(actions).Some? && NoDirectHolder(After(actions).value)
    ensures exists rest :: ConsumesAll(actions, rest)
  {
    FinishFrom(actions, After(actions).value, RankOf(After(actions).value));
    var rest :| Finishes(actions, rest);
    ReachableInvariant(actions + rest);
    QuiescentHasConsumedAll(After(actions + rest).value);
    assert ConsumesAll(actions, rest);
  }
}

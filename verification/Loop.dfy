/**
 * The dispatching object: the run loop, the dispatch task and the deferral of automation turns as
 * methods that change its fields, each proved to be the protocol's step of the same name.
 */
module Loop {
  import opened Dispatch
  import opened Wrappers

  /** Publishing the next deferred turn and releasing the lock, in one. */
  lemma ReleasedAfterPublishing(st: State, t: TaskId)
    requires Enabled(st, PublishDeferred(t))
    ensures var s := st.tasks[t].msg.session;
            && Enabled(Apply(st, PublishDeferred(t)), Release(t))
            && Apply(Apply(st, PublishDeferred(t)), Release(t))
               == NextDeferredPublished(st, s)
                  .(queues := st.queues - {t}, tasks := st.tasks - {t}, locks := st.locks - {s})
  {
    var mid := Apply(st, PublishDeferred(t));
    assert mid.tasks - {t} == st.tasks - {t};
  }

  class AgentLoop {
    var bus: seq<Inbound>
    var hand: Option<Inbound>
    var tasks: map<TaskId, Task>
    var locks: map<Session, Holder>
    var pendingQueues: map<Session, TaskId>
    var queues: map<TaskId, seq<Inbound>>
    var deferred: map<Session, seq<Inbound>>
    var consumed: set<Inbound>
    ghost var published: set<Inbound>

    ghost function Snapshot(): State
      reads this
    {
      State(bus, hand, tasks, locks, pendingQueues, queues, deferred, consumed, published)
    }

    constructor ()
      ensures Snapshot() == Initial
    {
      bus, hand, tasks, locks := [], None, map[], map[];
      pendingQueues, queues, deferred, consumed, published := map[], map[], map[], {}, {};
    }

    /** `consume_inbound`. */
    method ConsumeInbound()
      requires Enabled(Snapshot(), Consume)
      modifies this`bus, this`hand
      ensures hand.Some? && old(bus) == [hand.value] + bus
      ensures Snapshot() == Apply(old(Snapshot()), Consume)
    {
      hand := Some(bus[0]);
      bus := bus[1..];
    }

    /** `defer_if_active` of the automation turn coordinators. */
    method DeferIfActive(m: Inbound) returns (done: bool)
      modifies this`deferred
      ensures done == (m.deferrable && m.session in pendingQueues)
      ensures deferred == if !done then old(deferred)
                          else old(deferred)[m.session :=
                                 (if m.session in old(deferred) then old(deferred)[m.session] else []) + [m]]
    {
      if !(m.deferrable && m.session in pendingQueues) {
        return false;
      }
      if m.session !in deferred {
        deferred := deferred[m.session := []];
      }
      deferred := deferred[m.session := deferred[m.session] + [m]];
      return true;
    }

    /** `put_nowait` on the active queue; false when it is full. */
    method PutPending(m: Inbound) returns (queued: bool)
      requires m.session in pendingQueues
      requires pendingQueues[m.session] in queues
      modifies this`queues
      ensures queued == (|old(queues)[pendingQueues[m.session]]| < 20)
      ensures queues == if queued
                        then old(queues)[pendingQueues[m.session] := old(queues)[pendingQueues[m.session]] + [m]]
                        else old(queues)
    {
      var owner := pendingQueues[m.session];
      queued := |queues[owner]| < PENDING_QUEUE_SIZE;
      if queued {
        queues := queues[owner := queues[owner] + [m]];
      }
    }

    /**
     * The body of the run loop behind the consume. `newTask` names the task it may create: for a session
     * without a published queue, or when that queue is full. Each message ends up in one place alone.
     */
    method RouteMessage(newTask: TaskId)
      requires Enabled(Snapshot(), Route(newTask))
      requires PublishedMatch(Snapshot()) && QueuesMatch(Snapshot())
      modifies this`hand, this`tasks, this`queues, this`deferred, this`consumed
      ensures Snapshot() == Apply(old(Snapshot()), Route(newTask))
      ensures hand.None?
      ensures var m, active := old(hand).value, old(hand).value.session in pendingQueues;
              var handled := m.command.RuntimeControl? || m.command.Priority?;
              consumed == if handled || (active && !m.deferrable && m.command.Dispatchable?) then old(consumed) + {m}
                          else old(consumed)
      ensures var m, s := old(hand).value, old(hand).value.session;
              var defers := s in pendingQueues && m.deferrable && !m.command.RuntimeControl? && !m.command.Priority?;
              deferred == if !defers then old(deferred)
                          else old(deferred)[s := (if s in old(deferred) then old(deferred)[s] else []) + [m]]
      ensures var m, s := old(hand).value, old(hand).value.session;
              if s in pendingQueues && !m.deferrable && m.command.Plain? then
                var owner := pendingQueues[s];
                && owner in old(queues)
                && (|old(queues)[owner]| < 20 ==>
                      queues == old(queues)[owner := old(queues)[owner] + [m]] && tasks == old(tasks))
                && (|old(queues)[owner]| == 20 ==>
                      queues == old(queues) && tasks == old(tasks)[newTask := Task(m, Waiting)])
                && |old(queues)[owner]| <= 20
              else queues == old(queues)
      ensures var m := old(hand).value;
              m.session !in pendingQueues ==>
                tasks == if m.command.RuntimeControl? || m.command.Priority? then old(tasks)
                         else old(tasks)[newTask := Task(m, Waiting)]
      ensures var m := old(hand).value;
              m.session in pendingQueues && (m.deferrable || !m.command.Plain?) ==> tasks == old(tasks)
    {
      var m := hand.value;
      hand := None;
      if m.command.RuntimeControl? || m.command.Priority? {
        consumed := consumed + {m};
        return;
      }
      var wasDeferred := DeferIfActive(m);
      if wasDeferred {
        return;
      }
      if m.session in pendingQueues {
        assert HasPhase(Snapshot(), pendingQueues[m.session], Running);
        if m.command.Dispatchable? {
          consumed := consumed + {m};
          return;
        }
        var queued := PutPending(m);
        if queued {
          return;
        }
      }
      tasks := tasks[newTask := Task(m, Waiting)];
    }

    /** Entering `async with lock`. */
    method Acquire(t: TaskId)
      requires Enabled(Snapshot(), AcquireLock(t))
      modifies this`tasks, this`locks
      ensures Snapshot() == Apply(old(Snapshot()), AcquireLock(t))
      ensures var m := old(tasks)[t].msg;
              && old(tasks)[t].phase.Waiting? && m.session !in old(locks)
              && tasks == old(tasks)[t := Task(m, Locked)] && locks == old(locks)[m.session := ByTask(t)]
    {
      tasks := tasks[t := tasks[t].(phase := Locked)];
      locks := locks[tasks[t].msg.session := ByTask(t)];
    }

    /** Publishing the session's pending queue once lock and gate are held. */
    method PublishQueue(t: TaskId)
      requires Enabled(Snapshot(), Start(t))
      modifies this`tasks, this`queues, this`pendingQueues
      ensures Snapshot() == Apply(old(Snapshot()), Start(t))
      ensures var m := old(tasks)[t].msg;
              && old(tasks)[t].phase.Locked? && tasks == old(tasks)[t := Task(m, Running)]
              && queues == old(queues)[t := []] && pendingQueues == old(pendingQueues)[m.session := t]
    {
      tasks := tasks[t := tasks[t].(phase := Running)];
      queues := queues[t := []];
      pendingQueues := pendingQueues[tasks[t].msg.session := t];
    }

    /** The turn is over; only the task's own queue is taken back. */
    method TakeQueueBack(t: TaskId)
      requires Enabled(Snapshot(), Finish(t))
      modifies this`tasks, this`pendingQueues, this`consumed
      ensures Snapshot() == Apply(old(Snapshot()), Finish(t))
      ensures var m := old(tasks)[t].msg;
              && old(tasks)[t].phase.Running? && tasks == old(tasks)[t := Task(m, Draining)]
              && consumed == old(consumed) + {m}
              && pendingQueues == if m.session in old(pendingQueues) && old(pendingQueues)[m.session] == t
                                  then old(pendingQueues) - {m.session} else old(pendingQueues)
    {
      var s := tasks[t].msg.session;
      consumed := consumed + {tasks[t].msg};
      tasks := tasks[t := tasks[t].(phase := Draining)];
      if s in pendingQueues && pendingQueues[s] == t {
        pendingQueues := pendingQueues - {s};
      }
    }

    /** Putting all leftovers of the queue back on the bus, in order. */
    method RepublishLeftovers(t: TaskId)
      requires HasPhase(Snapshot(), t, Draining) && t in queues
      modifies this`bus, this`queues
      ensures bus == old(bus) + old(queues)[t] && queues == old(queues)[t := []]
      ensures Snapshot() == old(Snapshot()).(bus := bus, queues := queues)
    {
      while queues[t] != []
        invariant t in queues && bus + queues[t] == old(bus) + old(queues)[t]
        invariant queues == old(queues)[t := queues[t]]
        invariant Snapshot() == old(Snapshot()).(bus := bus, queues := queues)
        decreases |queues[t]|
      {
        var item := queues[t][0];
        queues := queues[t := queues[t][1..]];
        bus := bus + [item];
      }
    }

    /** `publish_next_deferred_turn`. */
    method PublishNextDeferred(s: Session) returns (published: bool)
      modifies this`deferred, this`bus
      ensures Snapshot() == NextDeferredPublished(old(Snapshot()), s)
      ensures published == (s in old(deferred) && old(deferred)[s] != [])
      ensures if published then
                && bus == old(bus) + [old(deferred)[s][0]]
                && deferred == if |old(deferred)[s]| == 1 then old(deferred) - {s}
                               else old(deferred)[s := old(deferred)[s][1..]]
              else bus == old(bus) && deferred == old(deferred)
    {
      if s !in deferred || deferred[s] == [] {
        return false;
      }
      var m := deferred[s][0];
      deferred := deferred[s := deferred[s][1..]];
      if deferred[s] == [] {
        deferred := deferred - {s};
      }
      bus := bus + [m];
      return true;
    }

    /** The rest of the dispatch task's cleanup, then leaving `async with`. */
    method PublishAndRelease(t: TaskId)
      requires Enabled(Snapshot(), PublishDeferred(t))
      modifies this`bus, this`deferred, this`queues, this`locks, this`tasks
      ensures Enabled(Apply(old(Snapshot()), PublishDeferred(t)), Release(t))
      ensures Snapshot() == Apply(Apply(old(Snapshot()), PublishDeferred(t)), Release(t))
      ensures var s := old(tasks)[t].msg.session;
              && queues == old(queues) - {t} && locks == old(locks) - {s} && tasks == old(tasks) - {t}
              && (forall x :: x != s ==> (x in deferred <==> x in old(deferred)))
              && (forall x :: x != s && x in deferred ==> deferred[x] == old(deferred)[x])
              && bus + (if s in deferred then deferred[s] else [])
                 == old(bus) + (if s in old(deferred) then old(deferred)[s] else [])
              && |bus| == |old(bus)| + if s in old(deferred) && old(deferred)[s] != [] then 1 else 0
    {
      var s := tasks[t].msg.session;
      ReleasedAfterPublishing(Snapshot(), t);
      var more := PublishNextDeferred(s);
      assert more ==> old(deferred)[s] == [old(deferred)[s][0]] + old(deferred)[s][1..];
      queues := queues - {t};
      locks := locks - {s};
      tasks := tasks - {t};
    }
  }

  /** Draining one by one is the protocol's DrainOne, repeated until the queue is empty. */
  ghost function Drained(st: State, t: TaskId): State
    requires HasPhase(st, t, Draining) && t in st.queues
    decreases |if t in st.queues then st.queues[t] else []|
  {
    if st.queues[t] == [] then st else Drained(Apply(st, DrainOne(t)), t)
  }

  lemma {:induction false} DrainingReturnsAllLeftovers(st: State, t: TaskId)
    requires HasPhase(st, t, Draining) && t in st.queues
    ensures Drained(st, t) == st.(bus := st.bus + st.queues[t], queues := st.queues[t := []])
    decreases |st.queues[t]|
  {
    if st.queues[t] == [] {
      assert st.queues[t := []] == st.queues;
      assert st.bus + [] == st.bus;
    } else {
      var next := Apply(st, DrainOne(t));
      DrainingReturnsAllLeftovers(next, t);
      assert next.bus + next.queues[t] == st.bus + st.queues[t];
      assert next.queues[t := []] == st.queues[t := []];
    }
  }
}

/**
 * Which tool call recovers which failed one. Tool calls finish side by side: each finishes in three
 * steps, and the steps of different calls interleave in any way.
 */
module Recovery {
  import opened Wrappers

  datatype Status = Ok | Error | Timeout | Cancelled | Blocked

  /** What is known of a call's input; an absent key is the empty string. */
  datatype SafeInput = SafeInput(retryKey: string, continuationKey: string, resourceKey: string,
    corrections: set<string>)

  /** A `tool_finished` event. */
  datatype Finished = Finished(id: string, status: Status, retryOf: seq<string>, continuationOf: seq<string>,
    recoveryOf: seq<string>)

  datatype Failure = Failure(id: string, input: SafeInput)

  predicate IsFailure(s: Status) {
    s.Error? || s.Timeout? || s.Cancelled?
  }

  predicate IsRetry(now: SafeInput, failed: SafeInput) {
    now.retryKey != "" && failed.retryKey == now.retryKey
  }

  predicate IsContinuation(now: SafeInput, failed: SafeInput) {
    now.continuationKey != "" && failed.continuationKey == now.continuationKey
  }

  predicate SameResource(now: SafeInput, failed: SafeInput) {
    && now.resourceKey != "" && failed.resourceKey != ""
    && (failed.resourceKey == now.resourceKey || now.resourceKey in failed.corrections
         || failed.resourceKey in now.corrections)
  }

  /** The call recovers the failure. */
  predicate Recovers(verified: bool, now: SafeInput, failed: SafeInput) {
    verified && (IsRetry(now, failed) || SameResource(now, failed))
  }

  function IdsOf(p: SafeInput -> bool, failures: seq<Failure>): (ids: seq<string>)
    ensures forall id :: id in ids <==> exists f :: f in failures && f.id == id && p(f.input)
  {
    if failures == [] then []
    else
      var rest, last := IdsOf(p, failures[..|failures| - 1]), failures[|failures| - 1];
      assert failures == failures[..|failures| - 1] + [last];
      if p(last.input) then rest + [last.id] else rest
  }

  function Without(p: SafeInput -> bool, failures: seq<Failure>): (rest: seq<Failure>)
    ensures forall f :: f in rest <==> f in failures && !p(f.input)
  {
    if failures == [] then []
    else
      var rest, last := Without(p, failures[..|failures| - 1]), failures[|failures| - 1];
      assert failures == failures[..|failures| - 1] + [last];
      if p(last.input) then rest else rest + [last]
  }

  predicate DistinctIds(failures: seq<Failure>) {
    forall i, j :: 0 <= i < j < |failures| ==> failures[i].id != failures[j].id
  }

  lemma SameIdSameFailure(failures: seq<Failure>, f: Failure, g: Failure)
    requires DistinctIds(failures) && f in failures && g in failures && f.id == g.id
    ensures f == g
  {
    var i :| 0 <= i < |failures| && failures[i] == f;
    var j :| 0 <= j < |failures| && failures[j] == g;
  }

  lemma {:induction false} PartsAreDistinct(p: SafeInput -> bool, failures: seq<Failure>)
    requires DistinctIds(failures)
    ensures DistinctIds(Without(p, failures)) && Distinct(IdsOf(p, failures))
  {
    if failures != [] {
      var n := |failures| - 1;
      PartsAreDistinct(p, failures[..n]);
      forall f | f in failures[..n] ensures f.id != failures[n].id {
        var i :| 0 <= i < n && failures[i] == f;
      }
      PartsGrow(p, failures[..n], failures[n]);
      assert failures == failures[..n] + [failures[n]];
    }
  }

  lemma PartsGrow(p: SafeInput -> bool, failures: seq<Failure>, f: Failure)
    requires DistinctIds(Without(p, failures)) && Distinct(IdsOf(p, failures))
    requires forall g :: g in failures ==> g.id != f.id
    ensures DistinctIds(Without(p, failures + [f])) && Distinct(IdsOf(p, failures + [f]))
  {
    assert (failures + [f])[..|failures|] == failures;
    assert f.id !in IdsOf(p, failures);
  }

  /** Before position `n` of the log, the call failed. */
  ghost predicate FailedBefore(log: seq<Finished>, n: int, id: string) {
    exists i :: 0 <= i < n && i < |log| && log[i].id == id && IsFailure(log[i].status)
  }

  /** Every recovery named by the event is the one on record, of a call that failed before position `n`. */
  ghost predicate NamesRecoveries(log: seq<Finished>, n: int, recoverer: map<string, string>, e: Finished) {
    && Distinct(e.recoveryOf) && (e.recoveryOf != [] ==> e.status.Ok?)
    && forall x :: x in e.recoveryOf ==> x in recoverer && recoverer[x] == e.id && FailedBefore(log, n, x)
  }

  /** Every recovery a log names is the one on record, of an earlier failure. */
  ghost predicate LogIsGood(log: seq<Finished>, recoverer: map<string, string>) {
    && (forall i, j :: 0 <= i < j < |log| ==> log[i].id != log[j].id)
    && (forall x :: x in recoverer ==> FailedBefore(log, |log|, x))
    && forall j :: 0 <= j < |log| ==> NamesRecoveries(log, j, recoverer, log[j])
  }

  /** So is every recovery named by an event that is not emitted yet. */
  ghost predicate DraftsAreGood(log: seq<Finished>, recoverer: map<string, string>, drafts: set<Finished>) {
    && (forall d :: d in drafts ==> NamesRecoveries(log, |log|, recoverer, d))
    && (forall i, d :: 0 <= i < |log| && d in drafts ==> log[i].id != d.id)
    && forall d, e :: d in drafts && e in drafts && d.id == e.id ==> d == e
  }

  /** The failures that may still be recovered: those pending and those not settled yet. */
  ghost predicate OpenAreGood(log: seq<Finished>, recoverer: map<string, string>, pending: seq<Failure>,
    unsettled: set<string>)
  {
    && DistinctIds(pending)
    && (forall f :: f in pending ==> f.id !in unsettled && f.id !in recoverer && FailedBefore(log, |log|, f.id))
    && forall x :: x in unsettled ==> x !in recoverer && FailedBefore(log, |log|, x)
  }

  lemma FailedStays(log: seq<Finished>, n: int, id: string, d: Finished)
    requires n <= |log|
    ensures FailedBefore(log + [d], n, id) <==> FailedBefore(log, n, id)
    ensures FailedBefore(log, n, id) ==> FailedBefore(log + [d], |log| + 1, id)
  {
    if FailedBefore(log, n, id) {
      var i :| 0 <= i < n && i < |log| && log[i].id == id && IsFailure(log[i].status);
      assert (log + [d])[i] == log[i];
    }
    if FailedBefore(log + [d], n, id) {
      var i :| 0 <= i < n && i < |log + [d]| && (log + [d])[i].id == id && IsFailure((log + [d])[i].status);
      assert log[i] == (log + [d])[i];
    }
  }

  lemma EmitKeepsLog(log: seq<Finished>, recoverer: map<string, string>, drafts: set<Finished>, d: Finished)
    requires LogIsGood(log, recoverer) && DraftsAreGood(log, recoverer, drafts) && d in drafts
    ensures LogIsGood(log + [d], recoverer)
  {
    forall x, n | n <= |log| ensures FailedBefore(log + [d], n, x) <==> FailedBefore(log, n, x) {
      FailedStays(log, n, x, d);
    }
    forall x | x in recoverer ensures FailedBefore(log + [d], |log| + 1, x) {
      FailedStays(log, |log|, x, d);
    }
  }

  lemma EmitKeepsDrafts(log: seq<Finished>, recoverer: map<string, string>, drafts: set<Finished>, d: Finished)
    requires DraftsAreGood(log, recoverer, drafts) && d in drafts
    ensures DraftsAreGood(log + [d], recoverer, drafts - {d})
  {
    forall e | e in drafts - {d} ensures NamesRecoveries(log + [d], |log| + 1, recoverer, e) {
      forall x | x in e.recoveryOf ensures FailedBefore(log + [d], |log| + 1, x) {
        FailedStays(log, |log|, x, d);
      }
    }
  }

  lemma EmitKeepsOpen(log: seq<Finished>, recoverer: map<string, string>, pending: seq<Failure>,
    unsettled: set<string>, d: Finished)
    requires OpenAreGood(log, recoverer, pending, unsettled) && LogIsGood(log, recoverer)
    requires forall i :: 0 <= i < |log| ==> log[i].id != d.id
    ensures OpenAreGood(log + [d], recoverer, pending, unsettled + if IsFailure(d.status) then {d.id} else {})
  {
    forall x | FailedBefore(log, |log|, x) ensures FailedBefore(log + [d], |log| + 1, x) && x != d.id {
      FailedStays(log, |log|, x, d);
    }
    assert (log + [d])[|log|] == d;
  }

  /** The failures a call recovers leave the open ones and go on record. */
  lemma ClassifyKeepsOpen(log: seq<Finished>, recoverer: map<string, string>, pending: seq<Failure>,
    unsettled: set<string>, recovered: seq<string>, remaining: seq<Failure>, id: string)
    requires OpenAreGood(log, recoverer, pending, unsettled) && DistinctIds(remaining)
    requires forall f :: f in remaining ==> f in pending && f.id !in recovered
    requires forall x :: x in recovered ==> exists f :: f in pending && f.id == x
    ensures OpenAreGood(log, Recorded(recoverer, recovered, id), remaining, unsettled)
  {
  }

  ghost function Recorded(recoverer: map<string, string>, recovered: seq<string>, id: string): map<string, string> {
    recoverer + map x | x in recovered :: id
  }

  lemma ClassifyKeepsLog(log: seq<Finished>, recoverer: map<string, string>, drafts: set<Finished>,
    recovered: seq<string>, d: Finished)
    requires LogIsGood(log, recoverer) && DraftsAreGood(log, recoverer, drafts)
    requires forall x :: x in recovered ==> x !in recoverer && FailedBefore(log, |log|, x)
    requires d.recoveryOf == recovered && Distinct(recovered) && (recovered != [] ==> d.status.Ok?)
    requires forall i :: 0 <= i < |log| ==> log[i].id != d.id
    requires forall e :: e in drafts ==> e.id != d.id
    ensures LogIsGood(log, Recorded(recoverer, recovered, d.id))
    ensures DraftsAreGood(log, Recorded(recoverer, recovered, d.id), drafts + {d})
  {
    var after := Recorded(recoverer, recovered, d.id);
    forall x | x in after ensures FailedBefore(log, |log|, x) {
    }
    forall j | 0 <= j < |log| ensures NamesRecoveries(log, j, after, log[j]) {
      NamesStay(log, j, recoverer, recovered, d.id, log[j]);
    }
    forall e | e in drafts + {d} ensures NamesRecoveries(log, |log|, after, e) {
      if e in drafts {
        NamesStay(log, |log|, recoverer, recovered, d.id, e);
      }
    }
  }

  lemma NamesStay(log: seq<Finished>, n: nat, recoverer: map<string, string>, recovered: seq<string>, id: string,
    e: Finished)
    requires NamesRecoveries(log, n, recoverer, e) && forall x :: x in recovered ==> x !in recoverer
    ensures NamesRecoveries(log, n, Recorded(recoverer, recovered, id), e)
  {
  }

  class RunnerHook {
    var pending: seq<Failure>
    /** The `tool_finished` events, in the order they were emitted. */
    var log: seq<Finished>
    /** Events that are built but not emitted, and emitted failures that are not pending yet. */
    ghost var drafts: set<Finished>
    ghost var unsettled: set<string>
    /** The call that recovers each recovered one. */
    ghost var recoverer: map<string, string>

    ghost predicate Valid()
      reads this
    {
      && LogIsGood(log, recoverer) && DraftsAreGood(log, recoverer, drafts)
      && OpenAreGood(log, recoverer, pending, unsettled)
    }

    /** No call with this id has come to its end. */
    ghost predicate IsNew(id: string)
      reads this
    {
      (forall i :: 0 <= i < |log| ==> log[i].id != id) && forall d :: d in drafts ==> d.id != id
    }

    constructor ()
      ensures Valid() && log == [] && pending == [] && drafts == {} && unsettled == {}
    {
      pending, log, drafts, unsettled, recoverer := [], [], {}, {}, map[];
    }

    /** The first step: the pending failures are searched for those this call retries, continues or recovers. */
    method Classify(id: string, status: Status, input: SafeInput, verified: bool) returns (draft: Finished)
      requires Valid() && IsNew(id)
      modifies this
      ensures Valid() && log == old(log) && unsettled == old(unsettled) && drafts == old(drafts) + {draft}
      ensures draft.id == id && draft.status == status
      ensures IsSearch(old(pending), input, status.Ok? && verified, draft.retryOf, draft.continuationOf,
                draft.recoveryOf, pending)
    {
      var retries, continuations, recoveries, remaining := Search(pending, input, status.Ok? && verified);
      draft := Finished(id, status, retries, continuations, recoveries);
      ClassifyKeepsLog(log, recoverer, drafts, recoveries, draft);
      ClassifyKeepsOpen(log, recoverer, pending, unsettled, recoveries, remaining, id);
      pending, drafts, recoverer := remaining, drafts + {draft}, Recorded(recoverer, recoveries, id);
    }

    /** The second step: the event is emitted. */
    method Emit(draft: Finished)
      requires Valid() && draft in drafts
      modifies this
      ensures Valid() && log == old(log) + [draft] && pending == old(pending) && drafts == old(drafts) - {draft}
      ensures unsettled == old(unsettled) + if draft.status in {Error, Timeout, Cancelled} then {draft.id} else {}
    {
      EmitKeepsLog(log, recoverer, drafts, draft);
      EmitKeepsDrafts(log, recoverer, drafts, draft);
      EmitKeepsOpen(log, recoverer, pending, unsettled, draft);
      log, drafts := log + [draft], drafts - {draft};
      if IsFailure(draft.status) {
        unsettled := unsettled + {draft.id};
      }
    }

    /** The third step: a failure becomes one that later calls may recover. */
    method Settle(id: string, input: SafeInput)
      requires Valid() && id in unsettled
      modifies this
      ensures Valid() && log == old(log) && pending == old(pending) + [Failure(id, input)]
      ensures drafts == old(drafts) && unsettled == old(unsettled) - {id}
    {
      pending := pending + [Failure(id, input)];
      unsettled := unsettled - {id};
    }
  }

  /** The same call again, or one on the same resource or on a correction of it, in either direction. */
  predicate Mends(now: SafeInput, failed: SafeInput) {
    || (now.retryKey != "" && now.retryKey == failed.retryKey)
    || (now.resourceKey != "" && failed.resourceKey != ""
        && now.resourceKey in failed.corrections + {failed.resourceKey})
    || (now.resourceKey != "" && failed.resourceKey != "" && failed.resourceKey in now.corrections)
  }

  /** What the search through the pending failures finds, and what it leaves. */
  ghost predicate IsSearch(pending: seq<Failure>, input: SafeInput, good: bool, retries: seq<string>,
    continuations: seq<string>, recoveries: seq<string>, remaining: seq<Failure>)
  {
    && (forall x :: x in retries <==>
          exists f :: f in pending && f.id == x && input.retryKey != "" && f.input.retryKey == input.retryKey)
    && (forall x :: x in continuations <==>
          exists f :: f in pending && f.id == x && input.continuationKey != ""
                      && f.input.continuationKey == input.continuationKey)
    && (forall x :: x in recoveries <==> exists f :: f in pending && f.id == x && good && Mends(input, f.input))
    && (forall f :: f in remaining <==> f in pending && !(good && Mends(input, f.input)))
  }

  lemma RecoversMeaning(good: bool, input: SafeInput)
    ensures forall f :: Recovers(good, input, f) <==> good && Mends(input, f)
  {
  }

  method Search(pending: seq<Failure>, input: SafeInput, good: bool)
    returns (retries: seq<string>, continuations: seq<string>, recoveries: seq<string>, remaining: seq<Failure>)
    requires DistinctIds(pending)
    ensures IsSearch(pending, input, good, retries, continuations, recoveries, remaining)
    ensures Distinct(recoveries) && DistinctIds(remaining)
    ensures forall f :: f in remaining ==> f.id !in recoveries
    ensures !good ==> recoveries == []
  {
    retries, continuations, recoveries, remaining := [], [], [], [];
    ghost var p := (f: SafeInput) => Recovers(good, input, f);
    for i := 0 to |pending|
      invariant retries == IdsOf(f => IsRetry(input, f), pending[..i])
      invariant continuations == IdsOf(f => IsContinuation(input, f), pending[..i])
      invariant recoveries == IdsOf(p, pending[..i])
      invariant remaining == Without(p, pending[..i])
      invariant !good ==> recoveries == []
    {
      var failed := pending[i];
      assert pending[..i + 1][..i] == pending[..i];
      if IsRetry(input, failed.input) {
        retries := retries + [failed.id];
      }
      if IsContinuation(input, failed.input) {
        continuations := continuations + [failed.id];
      }
      if Recovers(good, input, failed.input) {
        recoveries := recoveries + [failed.id];
      } else {
        remaining := remaining + [failed];
      }
    }
    assert pending[..|pending|] == pending;
    PartsAreDistinct(p, pending);
    RecoversMeaning(good, input);
    forall f, g | f in remaining && g in pending && f.id == g.id ensures f == g {
      SameIdSameFailure(pending, f, g);
    }
  }

  /** Over any interleaving, a failed call is recovered by at most one call, which succeeds after it failed. */
  lemma RecoveredOnceAndForward(hook: RunnerHook, j: nat, k: nat, x: string)
    requires hook.Valid() && j < |hook.log| && x in hook.log[j].recoveryOf
    ensures hook.log[j].status.Ok?
    ensures exists i :: 0 <= i < j && hook.log[i].id == x && hook.log[i].status in {Error, Timeout, Cancelled}
    ensures k < |hook.log| && x in hook.log[k].recoveryOf ==> k == j
  {
    assert NamesRecoveries(hook.log, j, hook.recoverer, hook.log[j]);
    if k < |hook.log| && x in hook.log[k].recoveryOf {
      assert NamesRecoveries(hook.log, k, hook.recoverer, hook.log[k]);
    }
  }

  // ---- the edges of the graph ----

  /** From the node of the failed call to the node of the call that recovers it. */
  datatype Edge = Edge(source: string, target: string)

  /** The recovery relation that event `j` declares about call `x` becomes an edge. */
  predicate DeclaresEdge(log: seq<Finished>, j: int, x: string) {
    && 0 <= j < |log| && log[j].status.Ok? && log[j].id != "" && x != "" && x != log[j].id
    && x in log[j].recoveryOf && exists i :: 0 <= i < |log| && log[i].id == x && !log[i].status.Ok?
  }

  /** Event `j` succeeded and names call `i`, another one that did not, among those it recovers. */
  predicate IsRecovery(log: seq<Finished>, i: int, j: int, e: Edge) {
    && 0 <= i < |log| && 0 <= j < |log| && log[i].id == e.source && log[j].id == e.target
    && log[i].status in {Error, Timeout, Cancelled, Blocked} && log[j].status.Ok?
    && e.source in log[j].recoveryOf && e.source != "" && e.target != "" && e.source != e.target
  }

  lemma DeclaredIsRecovery(log: seq<Finished>, e: Edge)
    ensures (exists j :: DeclaresEdge(log, j, e.source) && log[j].id == e.target)
            <==> exists i, j :: IsRecovery(log, i, j, e)
  {
    if j :| DeclaresEdge(log, j, e.source) && log[j].id == e.target {
      var i :| 0 <= i < |log| && log[i].id == e.source && !log[i].status.Ok?;
      assert IsRecovery(log, i, j, e);
    }
    if i, j :| IsRecovery(log, i, j, e) {
      assert DeclaresEdge(log, j, e.source);
    }
  }

  /** The `tool_recovery` edges of `_add_tool_relation_edges`. */
  method RecoveryEdges(log: seq<Finished>) returns (edges: set<Edge>)
    ensures forall e :: e in edges <==> exists j :: DeclaresEdge(log, j, e.source) && log[j].id == e.target
    ensures forall e :: e in edges <==> exists i, j :: IsRecovery(log, i, j, e)
  {
    edges := {};
    for j := 0 to |log|
      invariant forall e :: e in edges <==> exists m :: m < j && DeclaresEdge(log, m, e.source) && log[m].id == e.target
    {
      if log[j].status.Ok? && log[j].id != "" {
        for k := 0 to |log[j].recoveryOf|
          invariant forall e :: e in edges <==>
                      || (exists m :: m < j && DeclaresEdge(log, m, e.source) && log[m].id == e.target)
                      || (DeclaresEdge(log, j, e.source) && log[j].id == e.target && e.source in log[j].recoveryOf[..k])
        {
          var x := log[j].recoveryOf[k];
          assert log[j].recoveryOf[..k + 1] == log[j].recoveryOf[..k] + [x];
          if x != "" && x != log[j].id && exists i :: 0 <= i < |log| && log[i].id == x && !log[i].status.Ok? {
            edges := edges + {Edge(x, log[j].id)};
          }
        }
        assert log[j].recoveryOf[..|log[j].recoveryOf|] == log[j].recoveryOf;
      }
    }
    forall e ensures e in edges <==> exists i, j :: IsRecovery(log, i, j, e) {
      DeclaredIsRecovery(log, e);
    }
  }

  /** So each failed tool node has at most one outgoing recovery edge, and it points forward. */
  lemma RecoveryEdgesPointForward(hook: RunnerHook, edges: set<Edge>, a: Edge, b: Edge)
    requires hook.Valid()
    requires forall e :: e in edges <==> exists j :: DeclaresEdge(hook.log, j, e.source) && hook.log[j].id == e.target
    requires a in edges && b in edges
    ensures a.source == b.source ==> a == b
    ensures exists i, j :: 0 <= i < j < |hook.log| && hook.log[i].id == a.source && IsFailure(hook.log[i].status)
                           && hook.log[j].id == a.target && hook.log[j].status.Ok?
  {
    var j: nat :| DeclaresEdge(hook.log, j, a.source) && hook.log[j].id == a.target;
    var k: nat :| DeclaresEdge(hook.log, k, b.source) && hook.log[k].id == b.target;
    RecoveredOnceAndForward(hook, j, k, a.source);
  }
}

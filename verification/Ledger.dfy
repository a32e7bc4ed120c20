/** The failure ledger of a logical user request. */
module Ledger {
  import opened Wrappers

  const MAX_SOURCE_EVENT_IDS: nat := 8

  datatype Status = Ok | Error | Blocked | Timeout | Interrupted | Unknown

  predicate Counts(s: Status) {
    s.Error? || s.Blocked? || s.Timeout?
  }

  /** One operation's entry. */
  datatype Failure = Failure(consecutive: nat, lastOutcome: Status, sources: seq<string>)

  datatype LedgerState = LedgerState(requestId: string, revision: nat, failures: map<string, Failure>)

  /** One recorded outcome. */
  datatype Outcome = Outcome(key: string, status: Status, source: Option<string>)

  // ---- what the ledger stands for ----

  /** The outcomes of one operation. */
  function Of(key: string, history: seq<Outcome>): seq<Status> {
    if history == [] then []
    else
      var rest, last := Of(key, history[..|history| - 1]), history[|history| - 1];
      if last.key == key then rest + [last.status] else rest
  }

  function IsOf(key: string): Outcome -> bool {
    (o: Outcome) => o.key == key
  }

  /** Those recorded under its key, in their order. */
  lemma {:induction false} OfMeaning(key: string, history: seq<Outcome>)
    ensures AreImages(history, Of(key, history), IsOf(key), (o: Outcome, s: Status) => s == o.status)
  {
    if history != [] {
      OfMeaning(key, history[..|history| - 1]);
    }
  }

  /** How many outcomes at the end count as failures. */
  function Trailing(outcomes: seq<Status>): nat {
    if outcomes == [] || !Counts(outcomes[|outcomes| - 1]) then 0
    else Trailing(outcomes[..|outcomes| - 1]) + 1
  }

  /** The trailing run is the longest one: all of it counts, and what stands before it does not. */
  lemma {:induction false} TrailingIsLongest(outcomes: seq<Status>)
    ensures Trailing(outcomes) <= |outcomes|
    ensures forall i :: |outcomes| - Trailing(outcomes) <= i < |outcomes| ==> outcomes[i] in {Error, Blocked, Timeout}
    ensures Trailing(outcomes) < |outcomes| ==>
              outcomes[|outcomes| - Trailing(outcomes) - 1] in {Status.Ok, Interrupted, Unknown}
  {
    if outcomes != [] && Counts(outcomes[|outcomes| - 1]) {
      var rest := outcomes[..|outcomes| - 1];
      TrailingIsLongest(rest);
      forall i | |outcomes| - Trailing(outcomes) <= i < |outcomes| ensures Counts(outcomes[i]) {
        assert i < |rest| ==> rest[i] == outcomes[i];
      }
    }
  }

  /** The sources named since the last success, oldest first. */
  function SourcesSince(key: string, history: seq<Outcome>): seq<string> {
    if history == [] then []
    else
      var rest, last := SourcesSince(key, history[..|history| - 1]), history[|history| - 1];
      if last.key != key then rest
      else if last.status.Ok? then []
      else WithSource(rest, last.source)
  }

  /** `_append_source_event_id`. */
  function WithSource(ids: seq<string>, source: Option<string>): (kept: seq<string>)
    ensures Distinct(ids) ==> Distinct(kept)
    ensures |kept| <= 8
    ensures var isNew := source.Some? && source.value != "" && source.value !in ids;
            && (!isNew && |ids| <= 8 ==> kept == ids)
            && (isNew && |ids| < 8 ==> kept == ids + [source.value])
            && (isNew && |ids| == 8 ==> kept == ids[1..] + [source.value])
    ensures source.Some? && source.value != "" && source.value !in ids ==>
              kept != [] && kept[|kept| - 1] == source.value
  {
    var grown := if source.Some? && source.value != "" && source.value !in ids then ids + [source.value] else ids;
    if |grown| > MAX_SOURCE_EVENT_IDS then grown[|grown| - MAX_SOURCE_EVENT_IDS..] else grown
  }

  /** The entry an operation should have after some outcomes, if any. */
  function EntryFor(key: string, history: seq<Outcome>): Option<Failure> {
    var outcomes := Of(key, history);
    if outcomes == [] || outcomes[|outcomes| - 1].Ok? then None
    else Some(Failure(Trailing(outcomes), outcomes[|outcomes| - 1], SourcesSince(key, history)))
  }

  /** The ledger is the one these outcomes make. */
  ghost predicate Reflects(ledger: LedgerState, history: seq<Outcome>) {
    && ledger.revision == |history|
    && forall key :: EntryFor(key, history) == if key in ledger.failures then Some(ledger.failures[key]) else None
  }

  lemma Recording(key: string, history: seq<Outcome>, o: Outcome)
    ensures Of(key, history + [o]) == Of(key, history) + if o.key == key then [o.status] else []
    ensures SourcesSince(key, history + [o]) ==
            if o.key != key then SourcesSince(key, history)
            else if o.status.Ok? then [] else WithSource(SourcesSince(key, history), o.source)
  {
    assert (history + [o])[..|history|] == history;
  }

  /** With no entry an operation has had no failure since its last success. */
  lemma {:induction false} NoEntryNoSources(key: string, history: seq<Outcome>)
    ensures Of(key, history) == [] || Of(key, history)[|Of(key, history)| - 1].Ok? ==>
              SourcesSince(key, history) == [] && Trailing(Of(key, history)) == 0
  {
    if history != [] {
      NoEntryNoSources(key, history[..|history| - 1]);
    }
  }

  lemma TrailingStep(outcomes: seq<Status>, s: Status)
    ensures Trailing(outcomes + [s]) == if Counts(s) then Trailing(outcomes) + 1 else 0
  {
    assert (outcomes + [s])[..|outcomes|] == outcomes;
  }

  /** The entry one more outcome leaves, from the entry before it. */
  function NextEntry(previous: Option<Failure>, o: Outcome): Option<Failure> {
    if o.status.Ok? then None
    else
      var count := if previous.Some? then previous.value.consecutive else 0;
      var sources := if previous.Some? then previous.value.sources else [];
      Some(Failure(if Counts(o.status) then count + 1 else 0, o.status, WithSource(sources, o.source)))
  }

  lemma OtherEntryStays(key: string, history: seq<Outcome>, o: Outcome)
    requires o.key != key
    ensures EntryFor(key, history + [o]) == EntryFor(key, history)
  {
    Recording(key, history, o);
    assert Of(key, history + [o]) == Of(key, history);
  }

  lemma OwnEntryChanges(key: string, history: seq<Outcome>, o: Outcome)
    requires o.key == key
    ensures EntryFor(key, history + [o]) == NextEntry(EntryFor(key, history), o)
  {
    Recording(key, history, o);
    NoEntryNoSources(key, history);
    TrailingStep(Of(key, history), o.status);
  }

  lemma EntryStep(key: string, history: seq<Outcome>, o: Outcome)
    ensures EntryFor(key, history + [o])
            == if o.key == key then NextEntry(EntryFor(key, history), o) else EntryFor(key, history)
  {
    if o.key == key {
      OwnEntryChanges(key, history, o);
    } else {
      OtherEntryStays(key, history, o);
    }
  }

  class Session {
    var ledger: Option<LedgerState>
    /** The outcomes recorded in the current request. */
    ghost var history: seq<Outcome>

    ghost predicate Valid()
      reads this
    {
      ledger.Some? ==> Reflects(ledger.value, history)
    }

    constructor ()
      ensures Valid() && ledger == None
    {
      ledger, history := None, [];
    }

    /** `begin_logical_user_request`. */
    method Begin(requestId: string)
      modifies this
      ensures Valid() && history == [] && ledger == Some(LedgerState(requestId, 0, map[]))
    {
      ledger, history := Some(LedgerState(requestId, 0, map[])), [];
    }

    /** `inherit_logical_user_request`; a message without a request id belongs to the current request. */
    function Inherited(messageRequest: Option<string>): Option<string>
      reads this
    {
      if ledger.None? then None
      else match messageRequest
        case None => Some(ledger.value.requestId)
        case Some(id) => if id != "" && id == ledger.value.requestId then Some(id) else None
    }

    /**
     * `record_tool_terminal`: an outcome of the current request with a known operation becomes part
     * of the ledger; any other leaves it alone.
     */
    method Record(messageRequest: Option<string>, key: string, status: Status, source: Option<string>)
      returns (recorded: bool)
      requires Valid()
      modifies this
      ensures Valid()
      ensures recorded <==> old(Inherited(messageRequest)).Some? && key != ""
      ensures history == if recorded then old(history) + [Outcome(key, status, source)] else old(history)
      ensures !recorded ==> ledger == old(ledger)
      ensures recorded ==> ledger.Some? && ledger.value.requestId == old(ledger).value.requestId
    {
      if Inherited(messageRequest).None? || key == "" {
        return false;
      }
      var state := ledger.value;
      var previous := if key in state.failures then Some(state.failures[key]) else None;
      var failures := state.failures;
      if status.Ok? {
        failures := failures - {key};
      } else {
        var count := if previous.Some? then previous.value.consecutive else 0;
        var sources := if previous.Some? then previous.value.sources else [];
        failures := failures[key :=
          Failure(if Counts(status) then count + 1 else 0, status, WithSource(sources, source))];
      }
      forall k
        ensures EntryFor(k, history + [Outcome(key, status, source)])
                == if k in failures then Some(failures[k]) else None
      {
        EntryStep(k, history, Outcome(key, status, source));
      }
      history := history + [Outcome(key, status, source)];
      ledger := Some(state.(failures := failures, revision := state.revision + 1));
      return true;
    }
  }

  /**
   * In every reachable ledger the count of an operation is the length of its trailing run of
   * failures, and it names at most eight sources, all different.
   */
  lemma LedgerCountsTrailingFailures(session: Session, key: string)
    requires session.Valid() && session.ledger.Some?
    ensures session.ledger.value.revision == |session.history|
    ensures var failures := session.ledger.value.failures;
            && (if key in failures then failures[key].consecutive else 0) == Trailing(Of(key, session.history))
            && (key in failures ==> |failures[key].sources| <= 8 && Distinct(failures[key].sources))
    ensures var failures, outcomes := session.ledger.value.failures, Of(key, session.history);
            && (key in failures <==> outcomes != [] && !outcomes[|outcomes| - 1].Ok?)
            && (key in failures ==> failures[key].lastOutcome == outcomes[|outcomes| - 1])
  {
    var failures := session.ledger.value.failures;
    assert EntryFor(key, session.history) == if key in failures then Some(failures[key]) else None;
    NoEntryNoSources(key, session.history);
    SourcesAreFew(key, session.history);
  }

  lemma {:induction false} SourcesAreFew(key: string, history: seq<Outcome>)
    ensures |SourcesSince(key, history)| <= MAX_SOURCE_EVENT_IDS && Distinct(SourcesSince(key, history))
  {
    if history != [] {
      SourcesAreFew(key, history[..|history| - 1]);
    }
  }
}

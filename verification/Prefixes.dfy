/** Which prefix of each segment a process catalog commits, as the indexer reads it. */
module Prefixes {
  import opened Integrity
  import opened Reader
  import opened Wrappers

  datatype Stream = Events | Payloads

  predicate Registers(r: CatalogRecord, segment: string) {
    r.payload.body.kind.SegmentRegistered? && r.payload.body.kind.segment == segment
  }

  /** The segment is registered before record `i`. */
  ghost predicate RegisteredBefore(records: seq<CatalogRecord>, i: int, segment: string) {
    exists j :: 0 <= j < i && j < |records| && Registers(records[j], segment)
  }

  /**
   * Record `i` commits a prefix of the segment. A commit whose event segment is not registered yet
   * is passed over, payloads and all.
   */
  ghost predicate Commits(stream: Stream, records: seq<CatalogRecord>, i: int, segment: string) {
    && 0 <= i < |records| && records[i].payload.body.kind.EpochCommitted?
    && RegisteredBefore(records, i, segment)
    && var c := records[i].payload.body.kind.commit;
       match stream
       case Events => c.eventSegment == segment
       case Payloads =>
         && c.payloadSegment == Some(segment) && segment != "" && c.payloadHash.Some? && c.payloadHash.value != ""
         && RegisteredBefore(records, i, c.eventSegment)
  }

  predicate NamesPayloads(c: EpochCommit) {
    c.payloadSegment.Some? && c.payloadSegment.value != "" && c.payloadHash.Some? && c.payloadHash.value != ""
  }

  /** Record `i` is the latest commit of the segment: the highest epoch, and the first with that epoch. */
  ghost predicate IsLatest(stream: Stream, records: seq<CatalogRecord>, i: int, segment: string) {
    && Commits(stream, records, i, segment)
    && forall j :: Commits(stream, records, j, segment) ==>
                     EpochAt(records, j) < EpochAt(records, i)
                     || (EpochAt(records, j) == EpochAt(records, i) && i <= j)
  }

  function EpochAt(records: seq<CatalogRecord>, i: int): int {
    if 0 <= i < |records| && records[i].payload.body.kind.EpochCommitted?
    then records[i].payload.body.kind.commit.epoch
    else 0
  }

  /** One commit for each segment that has any, the latest. */
  ghost predicate Chooses(stream: Stream, records: seq<CatalogRecord>, chosen: map<string, EpochCommit>) {
    && (forall i, g :: Commits(stream, records, i, g) ==> g in chosen)
    && forall g :: g in chosen ==>
         exists i :: IsLatest(stream, records, i, g) && chosen[g] == records[i].payload.body.kind.commit
  }

  function Better(chosen: map<string, EpochCommit>, segment: string, c: EpochCommit): map<string, EpochCommit> {
    if segment !in chosen || c.epoch > chosen[segment].epoch then chosen[segment := c] else chosen
  }

  ghost predicate AreRegistered(records: seq<CatalogRecord>, registered: set<string>) {
    forall g :: g in registered <==> RegisteredBefore(records, |records|, g)
  }

  /** What one more record makes of the chosen commits. */
  function NextChosen(stream: Stream, registered: set<string>, r: CatalogRecord, chosen: map<string, EpochCommit>):
    map<string, EpochCommit>
  {
    var kind := r.payload.body.kind;
    if !kind.EpochCommitted? || kind.commit.eventSegment !in registered then chosen
    else if stream.Events? then Better(chosen, kind.commit.eventSegment, kind.commit)
    else if NamesPayloads(kind.commit) && kind.commit.payloadSegment.value in registered then
      Better(chosen, kind.commit.payloadSegment.value, kind.commit)
    else chosen
  }

  lemma NextIsChosen(stream: Stream, before: seq<CatalogRecord>, r: CatalogRecord, registered: set<string>,
    chosen: map<string, EpochCommit>)
    requires Chooses(stream, before, chosen)
    requires AreRegistered(before, registered)
    ensures Chooses(stream, before + [r], NextChosen(stream, registered, r, chosen))
  {
    var kind, n := r.payload.body.kind, |before|;
    forall g ensures RegisteredBefore(before + [r], n, g) <==> g in registered {
      assert RegisteredBefore(before, n, g) <==> g in registered;
      assert forall j :: 0 <= j < n ==> (before + [r])[j] == before[j];
    }
    if !kind.EpochCommitted? || kind.commit.eventSegment !in registered {
      PassOver(stream, before, r, chosen);
    } else if stream.Events? {
      TakeIn(stream, before, r, chosen, kind.commit.eventSegment);
    } else if NamesPayloads(kind.commit) && kind.commit.payloadSegment.value in registered {
      TakeIn(stream, before, r, chosen, kind.commit.payloadSegment.value);
    } else {
      PassOver(stream, before, r, chosen);
    }
  }

  // ---- path tokens ----

  /** The path token the segment was registered with last, before record `i`. */
  function PathBefore(records: seq<CatalogRecord>, i: nat, segment: string): Option<string>
    requires i <= |records|
  {
    if i == 0 then None
    else if Registers(records[i - 1], segment) then Some(records[i - 1].payload.body.kind.path)
    else PathBefore(records, i - 1, segment)
  }

  predicate LeadsOut(escapes: string -> bool, path: Option<string>) {
    path.Some? && escapes(path.value)
  }

  /** Record `i` commits a segment whose path leads out of the audit root. */
  predicate IsRefused(escapes: string -> bool, records: seq<CatalogRecord>, i: nat)
    requires i < |records|
  {
    records[i].payload.body.kind.EpochCommitted?
    && var c := records[i].payload.body.kind.commit;
       && PathBefore(records, i, c.eventSegment).Some?
       && (LeadsOut(escapes, PathBefore(records, i, c.eventSegment))
           || (c.payloadSegment.Some? && c.payloadSegment.value != ""
               && c.payloadHash.Some? && c.payloadHash.value != ""
               && LeadsOut(escapes, PathBefore(records, i, c.payloadSegment.value))))
  }

  lemma {:induction false} PathOfPrefix(records: seq<CatalogRecord>, n: nat, i: nat, segment: string)
    requires i <= n <= |records|
    ensures PathBefore(records[..n], i, segment) == PathBefore(records, i, segment)
  {
    if i > 0 {
      PathOfPrefix(records, n, i - 1, segment);
    }
  }

  lemma {:induction false} RegisteredHasPath(records: seq<CatalogRecord>, i: nat, segment: string)
    requires i <= |records|
    ensures RegisteredBefore(records, i, segment) <==> PathBefore(records, i, segment).Some?
  {
    if i > 0 {
      RegisteredHasPath(records, i - 1, segment);
      assert RegisteredBefore(records, i, segment)
             <==> RegisteredBefore(records, i - 1, segment) || Registers(records[i - 1], segment);
    }
  }

  /** The dictionary of paths after the first `i` records. */
  ghost predicate ArePaths(records: seq<CatalogRecord>, i: nat, paths: map<string, string>)
    requires i <= |records|
  {
    forall g :: PathBefore(records, i, g) == if g in paths then Some(paths[g]) else None
  }

  lemma PathsAreRegistered(records: seq<CatalogRecord>, i: nat, paths: map<string, string>)
    requires i <= |records| && ArePaths(records, i, paths)
    ensures AreRegistered(records[..i], paths.Keys)
  {
    forall g ensures g in paths.Keys <==> RegisteredBefore(records[..i], i, g) {
      RegisteredHasPath(records[..i], i, g);
      PathOfPrefix(records, i, i, g);
    }
  }

  /** What one more record makes of the two choices. */
  lemma ChoosesNext(records: seq<CatalogRecord>, i: nat, paths: map<string, string>, events: map<string, EpochCommit>,
    payloads: map<string, EpochCommit>)
    requires i < |records| && ArePaths(records, i, paths)
    requires Chooses(Events, records[..i], events) && Chooses(Payloads, records[..i], payloads)
    ensures Chooses(Events, records[..i + 1], NextChosen(Events, paths.Keys, records[i], events))
    ensures Chooses(Payloads, records[..i + 1], NextChosen(Payloads, paths.Keys, records[i], payloads))
  {
    assert records[..i + 1] == records[..i] + [records[i]];
    PathsAreRegistered(records, i, paths);
    NextIsChosen(Events, records[..i], records[i], paths.Keys, events);
    NextIsChosen(Payloads, records[..i], records[i], paths.Keys, payloads);
  }

  lemma PathsGrow(records: seq<CatalogRecord>, i: nat, paths: map<string, string>)
    requires i < |records| && ArePaths(records, i, paths)
    ensures var kind := records[i].payload.body.kind;
            ArePaths(records, i + 1, if kind.SegmentRegistered? then paths[kind.segment := kind.path] else paths)
  {
  }

  lemma RefusedMeans(escapes: string -> bool, records: seq<CatalogRecord>, i: nat, paths: map<string, string>)
    requires i < |records| && ArePaths(records, i, paths) && records[i].payload.body.kind.EpochCommitted?
    ensures var c := records[i].payload.body.kind.commit;
            IsRefused(escapes, records, i)
            <==> c.eventSegment in paths
                 && (escapes(paths[c.eventSegment])
                     || (NamesPayloads(c) && c.payloadSegment.value in paths && escapes(paths[c.payloadSegment.value])))
  {
    var c := records[i].payload.body.kind.commit;
    assert PathBefore(records, i, c.eventSegment)
           == if c.eventSegment in paths then Some(paths[c.eventSegment]) else None;
  }

  /** One record: a registration, a commit of registered segments, or anything else. */
  method TakeRecord(escapes: string -> bool, ghost records: seq<CatalogRecord>, ghost i: nat, r: CatalogRecord,
    before: map<string, string>, events0: map<string, EpochCommit>, payloads0: map<string, EpochCommit>)
    returns (raised: bool, paths: map<string, string>, events: map<string, EpochCommit>,
             payloads: map<string, EpochCommit>)
    requires i < |records| && r == records[i] && ArePaths(records, i, before)
    ensures raised <==> IsRefused(escapes, records, i)
    ensures !raised ==> ArePaths(records, i + 1, paths)
    ensures !raised ==> events == NextChosen(Events, before.Keys, r, events0)
    ensures !raised ==> payloads == NextChosen(Payloads, before.Keys, r, payloads0)
  {
    PathsGrow(records, i, before);
    raised, paths, events, payloads := false, before, events0, payloads0;
    var kind := r.payload.body.kind;
    if kind.SegmentRegistered? {
      paths := before[kind.segment := kind.path];
    } else if kind.EpochCommitted? {
      RefusedMeans(escapes, records, i, before);
      var c := kind.commit;
      if c.eventSegment !in before {
        return;
      }
      if escapes(before[c.eventSegment]) {
        return true, paths, events, payloads;
      }
      events := Better(events, c.eventSegment, c);
      if NamesPayloads(c) && c.payloadSegment.value in before {
        if escapes(before[c.payloadSegment.value]) {
          return true, paths, events, payloads;
        }
        payloads := Better(payloads, c.payloadSegment.value, c);
      }
    }
  }

  /**
   * `_prefixes` for the records of one process: it raises if and only if some record commits a
   * registered segment whose path leads out of the audit root.
   */
  method ChoosePrefixes(escapes: string -> bool, records: seq<CatalogRecord>)
    returns (raised: bool, events: map<string, EpochCommit>, payloads: map<string, EpochCommit>)
    ensures raised <==> exists i :: 0 <= i < |records| && IsRefused(escapes, records, i)
    ensures !raised ==> Chooses(Events, records, events) && Chooses(Payloads, records, payloads)
  {
    var paths: map<string, string> := map[];
    raised, events, payloads := false, map[], map[];
    for i := 0 to |records|
      invariant !raised && ArePaths(records, i, paths)
      invariant forall j :: 0 <= j < i ==> !IsRefused(escapes, records, j)
      invariant Chooses(Events, records[..i], events) && Chooses(Payloads, records[..i], payloads)
    {
      ChoosesNext(records, i, paths, events, payloads);
      raised, paths, events, payloads := TakeRecord(escapes, records, i, records[i], paths, events, payloads);
      if raised {
        return;
      }
    }
    assert records[..|records|] == records;
  }

  /** An appended record does not change what the records before it commit. */
  lemma CommitsBefore(stream: Stream, before: seq<CatalogRecord>, r: CatalogRecord, i: int, g: string)
    requires i < |before|
    ensures Commits(stream, before + [r], i, g) <==> Commits(stream, before, i, g)
  {
    assert forall h :: RegisteredBefore(before + [r], i, h) <==> RegisteredBefore(before, i, h) by {
      assert forall j :: 0 <= j < |before| ==> (before + [r])[j] == before[j];
    }
  }

  lemma LatestStays(stream: Stream, before: seq<CatalogRecord>, r: CatalogRecord, i: int, g: string)
    requires IsLatest(stream, before, i, g)
    requires !Commits(stream, before + [r], |before|, g) || EpochAt(before + [r], |before|) <= EpochAt(before, i)
    ensures IsLatest(stream, before + [r], i, g) && (before + [r])[i] == before[i]
  {
    CommitsBefore(stream, before, r, i, g);
    forall j | Commits(stream, before + [r], j, g)
      ensures EpochAt(before + [r], j) < EpochAt(before + [r], i)
              || (EpochAt(before + [r], j) == EpochAt(before + [r], i) && i <= j)
    {
      if j < |before| {
        CommitsBefore(stream, before, r, j, g);
        assert EpochAt(before + [r], j) == EpochAt(before, j);
      }
    }
  }

  lemma PassOver(stream: Stream, before: seq<CatalogRecord>, r: CatalogRecord, chosen: map<string, EpochCommit>)
    requires Chooses(stream, before, chosen)
    requires forall g :: !Commits(stream, before + [r], |before|, g)
    ensures Chooses(stream, before + [r], chosen)
  {
    forall i, g | Commits(stream, before + [r], i, g) ensures g in chosen {
      CommitsBefore(stream, before, r, i, g);
    }
    forall g | g in chosen
      ensures exists i ::
                IsLatest(stream, before + [r], i, g) && chosen[g] == (before + [r])[i].payload.body.kind.commit
    {
      var i :| IsLatest(stream, before, i, g) && chosen[g] == before[i].payload.body.kind.commit;
      LatestStays(stream, before, r, i, g);
    }
  }

  lemma NewLatest(stream: Stream, before: seq<CatalogRecord>, r: CatalogRecord, chosen: map<string, EpochCommit>,
    g: string)
    requires Chooses(stream, before, chosen) && Commits(stream, before + [r], |before|, g)
    requires g in chosen ==> r.payload.body.kind.EpochCommitted? && r.payload.body.kind.commit.epoch > chosen[g].epoch
    ensures IsLatest(stream, before + [r], |before|, g)
  {
    forall j | Commits(stream, before + [r], j, g) && j < |before|
      ensures EpochAt(before + [r], j) < EpochAt(before + [r], |before|)
    {
      CommitsBefore(stream, before, r, j, g);
      var i :| IsLatest(stream, before, i, g) && chosen[g] == before[i].payload.body.kind.commit;
      assert EpochAt(before, j) <= EpochAt(before, i);
    }
  }

  lemma TakeIn(stream: Stream, before: seq<CatalogRecord>, r: CatalogRecord, chosen: map<string, EpochCommit>,
    here: string)
    requires Chooses(stream, before, chosen) && Commits(stream, before + [r], |before|, here)
    ensures r.payload.body.kind.EpochCommitted?
    ensures Chooses(stream, before + [r], Better(chosen, here, r.payload.body.kind.commit))
  {
    var c := r.payload.body.kind.commit;
    var after := Better(chosen, here, c);
    forall i, g | Commits(stream, before + [r], i, g) ensures g in after {
      if i < |before| {
        CommitsBefore(stream, before, r, i, g);
      }
    }
    forall g | g in after
      ensures exists i :: IsLatest(stream, before + [r], i, g) && after[g] == (before + [r])[i].payload.body.kind.commit
    {
      if g == here && (here !in chosen || c.epoch > chosen[here].epoch) {
        NewLatest(stream, before, r, chosen, here);
      } else {
        var i :| IsLatest(stream, before, i, g) && chosen[g] == before[i].payload.body.kind.commit;
        LatestStays(stream, before, r, i, g);
      }
    }
  }
}

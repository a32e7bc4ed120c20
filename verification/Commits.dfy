/** From the records of the catalogs to the commits the index works with. */
module Commits {
  import opened Integrity
  import opened Reader
  import opened Prefixes
  import opened Wrappers
  import Index
  import Agreement

  /** The records read from the catalog of each process. */
  type Catalogs = map<string, seq<CatalogRecord>>

  /** What a commit says of a segment of the stream. */
  function PrefixOf(stream: Stream, process: string, segment: string, c: EpochCommit): Index.Prefix {
    match stream
    case Events => Index.Prefix(process, segment, c.eventOffset, c.eventHash)
    case Payloads =>
      Index.Prefix(process, segment, c.payloadOffset, if c.payloadHash.Some? then c.payloadHash.value else "")
  }

  ghost predicate CommitsIn(stream: Stream, catalogs: Catalogs, process: string, i: int, segment: string) {
    process in catalogs && Commits(stream, catalogs[process], i, segment)
  }

  function PrefixAt(stream: Stream, catalogs: Catalogs, process: string, i: int, segment: string): Index.Prefix
    requires process in catalogs && 0 <= i < |catalogs[process]|
             && catalogs[process][i].payload.body.kind.EpochCommitted?
  {
    PrefixOf(stream, process, segment, catalogs[process][i].payload.body.kind.commit)
  }

  /** The prefix is the latest commit of its segment in the catalog of its process. */
  ghost predicate IsListed(stream: Stream, catalogs: Catalogs, p: Index.Prefix) {
    p.process in catalogs
    && exists i ::
         IsLatest(stream, catalogs[p.process], i, p.segment) && PrefixAt(stream, catalogs, p.process, i, p.segment) == p
  }

  /** The prefix carries the offset and the hash that the commit names for the segment, in its stream. */
  predicate IsCommitOf(stream: Stream, c: EpochCommit, p: Index.Prefix) {
    match stream
    case Events => p.segment == c.eventSegment && p.offset == c.eventOffset && p.hash == c.eventHash
    case Payloads => Some(p.segment) == c.payloadSegment && p.offset == c.payloadOffset && Some(p.hash) == c.payloadHash
  }

  lemma ListedMeaning(stream: Stream, catalogs: Catalogs, p: Index.Prefix) returns (i: nat)
    requires IsListed(stream, catalogs, p)
    ensures IsLatest(stream, catalogs[p.process], i, p.segment) && i < |catalogs[p.process]|
    ensures catalogs[p.process][i].payload.body.kind.EpochCommitted?
            && IsCommitOf(stream, catalogs[p.process][i].payload.body.kind.commit, p)
  {
    i :|
      IsLatest(stream, catalogs[p.process], i, p.segment) && PrefixAt(stream, catalogs, p.process, i, p.segment) == p;
  }

  ghost predicate Names(prefixes: seq<Index.Prefix>, process: string, segment: string) {
    exists n :: 0 <= n < |prefixes| && prefixes[n].process == process && prefixes[n].segment == segment
  }

  predicate AreDistinct(prefixes: seq<Index.Prefix>) {
    forall m, n :: 0 <= m < n < |prefixes| ==>
        prefixes[m].process != prefixes[n].process || prefixes[m].segment != prefixes[n].segment
  }

  /** One prefix for each segment that any catalog commits, the latest of its process. */
  ghost predicate Lists(stream: Stream, catalogs: Catalogs, prefixes: seq<Index.Prefix>) {
    && (forall n :: 0 <= n < |prefixes| ==> IsListed(stream, catalogs, prefixes[n]))
    && (forall process, i, segment :: CommitsIn(stream, catalogs, process, i, segment) ==>
           Names(prefixes, process, segment))
    && AreDistinct(prefixes)
  }

  // ---- `_prefixes` over all processes ----

  /** The prefixes chosen for one process, in any order. */
  method PrefixesOf(stream: Stream, process: string, chosen: map<string, EpochCommit>)
    returns (prefixes: seq<Index.Prefix>)
    ensures forall n :: 0 <= n < |prefixes| ==>
              prefixes[n].segment in chosen
                && prefixes[n] == PrefixOf(stream, process, prefixes[n].segment, chosen[prefixes[n].segment])
    ensures forall segment :: segment in chosen ==> Names(prefixes, process, segment)
    ensures AreDistinct(prefixes)
  {
    prefixes := [];
    var rest := chosen.Keys;
    while rest != {}
      invariant rest <= chosen.Keys
      invariant forall n :: 0 <= n < |prefixes| ==>
                  && prefixes[n].segment in chosen && prefixes[n].segment !in rest
                  && prefixes[n] == PrefixOf(stream, process, prefixes[n].segment, chosen[prefixes[n].segment])
      invariant forall segment :: segment in chosen && segment !in rest ==> Names(prefixes, process, segment)
      invariant AreDistinct(prefixes)
      decreases rest
    {
      var segment :| segment in rest;
      var grown := prefixes + [PrefixOf(stream, process, segment, chosen[segment])];
      NamesGrow(prefixes, grown[|prefixes|..], process);
      assert grown == prefixes + grown[|prefixes|..] && grown[|prefixes|].segment == segment;
      assert Names(grown, process, segment);
      prefixes, rest := grown, rest - {segment};
    }
  }

  lemma NamesGrow(prefixes: seq<Index.Prefix>, more: seq<Index.Prefix>, process: string)
    ensures forall segment :: Names(prefixes, process, segment) || Names(more, process, segment) ==>
              Names(prefixes + more, process, segment)
  {
    forall segment | Names(prefixes, process, segment) || Names(more, process, segment)
      ensures Names(prefixes + more, process, segment)
    {
      if Names(prefixes, process, segment) {
        var n :| 0 <= n < |prefixes| && prefixes[n].process == process && prefixes[n].segment == segment;
        assert (prefixes + more)[n] == prefixes[n];
      } else {
        var n :| 0 <= n < |more| && more[n].process == process && more[n].segment == segment;
        assert (prefixes + more)[|prefixes| + n] == more[n];
      }
    }
  }

  /** The prefixes of the processes in `done`. */
  ghost predicate ListsOf(stream: Stream, catalogs: Catalogs, done: seq<string>, prefixes: seq<Index.Prefix>) {
    && (forall n :: 0 <= n < |prefixes| ==> prefixes[n].process in done && IsListed(stream, catalogs, prefixes[n]))
    && (forall process, i, segment :: process in done && CommitsIn(stream, catalogs, process, i, segment) ==>
          Names(prefixes, process, segment))
    && AreDistinct(prefixes)
  }

  lemma ProcessJoins(stream: Stream, catalogs: Catalogs, done: seq<string>, prefixes: seq<Index.Prefix>,
    process: string,
    chosen: map<string, EpochCommit>, more: seq<Index.Prefix>)
    requires ListsOf(stream, catalogs, done, prefixes) && process !in done && process in catalogs
    requires Chooses(stream, catalogs[process], chosen) && AreDistinct(more)
    requires forall n :: 0 <= n < |more| ==>
               more[n].segment in chosen
                 && more[n] == PrefixOf(stream, process, more[n].segment, chosen[more[n].segment])
    requires forall segment :: segment in chosen ==> Names(more, process, segment)
    ensures ListsOf(stream, catalogs, done + [process], prefixes + more)
  {
    forall n | 0 <= n < |more| ensures more[n].process == process && IsListed(stream, catalogs, more[n]) {
      ChosenIsListed(stream, catalogs, process, chosen, more[n].segment);
    }
    forall other, i, segment | other in done + [process] && CommitsIn(stream, catalogs, other, i, segment)
      ensures Names(prefixes + more, other, segment)
    {
      NamesGrow(prefixes, more, other);
    }
  }

  lemma ChosenIsListed(stream: Stream, catalogs: Catalogs, process: string, chosen: map<string, EpochCommit>,
    segment: string)
    requires process in catalogs && Chooses(stream, catalogs[process], chosen) && segment in chosen
    ensures IsListed(stream, catalogs, PrefixOf(stream, process, segment, chosen[segment]))
  {
    var i :| IsLatest(stream, catalogs[process], i, segment)
             && chosen[segment] == catalogs[process][i].payload.body.kind.commit;
    assert PrefixAt(stream, catalogs, process, i, segment) == PrefixOf(stream, process, segment, chosen[segment]);
  }

  /** Some record commits a registered segment whose path leads out of the audit root. */
  ghost predicate AnyRefused(escapes: string -> bool, records: seq<CatalogRecord>) {
    exists i :: 0 <= i < |records| && IsRefused(escapes, records, i)
  }

  /** The prefixes of one more process. */
  method ListProcess(escapes: string -> bool, catalogs: Catalogs, process: string, ghost done: seq<string>,
    events0: seq<Index.Prefix>, payloads0: seq<Index.Prefix>)
    returns (raised: bool, events: seq<Index.Prefix>, payloads: seq<Index.Prefix>)
    requires process in catalogs && process !in done
    requires ListsOf(Events, catalogs, done, events0) && ListsOf(Payloads, catalogs, done, payloads0)
    ensures raised <==> AnyRefused(escapes, catalogs[process])
    ensures !raised ==> ListsOf(Events, catalogs, done + [process], events)
    ensures !raised ==> ListsOf(Payloads, catalogs, done + [process], payloads)
  {
    var ofEvents, ofPayloads;
    raised, ofEvents, ofPayloads := ChoosePrefixes(escapes, catalogs[process]);
    if raised {
      return true, [], [];
    }
    var e := PrefixesOf(Events, process, ofEvents);
    var p := PrefixesOf(Payloads, process, ofPayloads);
    ProcessJoins(Events, catalogs, done, events0, process, ofEvents, e);
    ProcessJoins(Payloads, catalogs, done, payloads0, process, ofPayloads, p);
    return false, events0 + e, payloads0 + p;
  }

  /** `_prefixes`, the final sorting aside. */
  method ListPrefixes(escapes: string -> bool, catalogs: Catalogs, processes: seq<string>)
    returns (raised: bool, events: seq<Index.Prefix>, payloads: seq<Index.Prefix>)
    requires Distinct(processes) && forall process :: process in processes <==> process in catalogs
    ensures raised <==> exists process :: process in catalogs && AnyRefused(escapes, catalogs[process])
    ensures !raised ==> Lists(Events, catalogs, events) && Lists(Payloads, catalogs, payloads)
  {
    raised, events, payloads := false, [], [];
    for k := 0 to |processes|
      invariant ListsOf(Events, catalogs, processes[..k], events)
      invariant ListsOf(Payloads, catalogs, processes[..k], payloads)
      invariant !raised && forall j :: 0 <= j < k ==> !AnyRefused(escapes, catalogs[processes[j]])
    {
      assert processes[..k + 1] == processes[..k] + [processes[k]] && processes[k] !in processes[..k];
      raised, events, payloads := ListProcess(escapes, catalogs, processes[k], processes[..k], events, payloads);
      if raised {
        return;
      }
    }
    assert processes[..|processes|] == processes;
  }

  // ---- what honest catalogs give ----

  /**
   * The catalogs say of a segment only what its writer wrote, a later epoch commits no less, and a
   * segment belongs to one process.
   */
  ghost predicate Honest(stream: Stream, log: Agreement.Log, catalogs: Catalogs) {
    && (forall process, i, segment :: CommitsIn(stream, catalogs, process, i, segment) ==>
          Agreement.IsCommit(log, PrefixAt(stream, catalogs, process, i, segment)))
    && (forall process, i, j, segment ::
          CommitsIn(stream, catalogs, process, i, segment) && CommitsIn(stream, catalogs, process, j, segment)
          && EpochAt(catalogs[process], i) < EpochAt(catalogs[process], j) ==>
            PrefixAt(stream, catalogs, process, i, segment).offset
            <= PrefixAt(stream, catalogs, process, j, segment).offset)
    && forall process, other, i, j, segment ::
         CommitsIn(stream, catalogs, process, i, segment) && CommitsIn(stream, catalogs, other, j, segment) ==>
             process == other
  }

  /** What is listed from honest catalogs is what the writers wrote, each segment once. */
  lemma ListedAreCommits(stream: Stream, log: Agreement.Log, catalogs: Catalogs, prefixes: seq<Index.Prefix>)
    requires Honest(stream, log, catalogs) && Lists(stream, catalogs, prefixes)
    ensures Agreement.AreCommits(log, prefixes)
  {
    forall m | 0 <= m < |prefixes| ensures Agreement.IsCommit(log, prefixes[m]) {
      ListedCommits(stream, catalogs, prefixes[m]);
    }
    forall m, n | 0 <= m < n < |prefixes| ensures prefixes[m].segment != prefixes[n].segment {
      ListedCommits(stream, catalogs, prefixes[m]);
      ListedCommits(stream, catalogs, prefixes[n]);
    }
  }

  lemma ListedCommits(stream: Stream, catalogs: Catalogs, p: Index.Prefix)
    requires IsListed(stream, catalogs, p)
    ensures exists i ::
              CommitsIn(stream, catalogs, p.process, i, p.segment)
              && PrefixAt(stream, catalogs, p.process, i, p.segment) == p
  {
    var i :| IsLatest(stream, catalogs[p.process], i, p.segment)
      && PrefixAt(stream, catalogs, p.process, i, p.segment) == p;
    assert CommitsIn(stream, catalogs, p.process, i, p.segment);
  }

  /** Catalogs grow by new records behind the old ones, and by new processes. */
  ghost predicate Grow(a: Catalogs, b: Catalogs) {
    forall process :: process in a ==> process in b && a[process] <= b[process]
  }

  lemma RegisteredInBoth(before: seq<CatalogRecord>, after: seq<CatalogRecord>, i: int, segment: string)
    requires before <= after && i <= |before|
    ensures RegisteredBefore(after, i, segment) <==> RegisteredBefore(before, i, segment)
  {
    assert forall j :: 0 <= j < |before| ==> after[j] == before[j];
  }

  /** New records do not change what the old ones commit. */
  lemma CommitStays(stream: Stream, before: seq<CatalogRecord>, after: seq<CatalogRecord>, i: int, segment: string)
    requires before <= after && i < |before|
    ensures Commits(stream, after, i, segment) <==> Commits(stream, before, i, segment)
    ensures EpochAt(after, i) == EpochAt(before, i)
  {
    forall g ensures RegisteredBefore(after, i, g) <==> RegisteredBefore(before, i, g) {
      RegisteredInBoth(before, after, i, g);
    }
    assert 0 <= i ==> after[i] == before[i];
  }

  /** The latest commit after growth is the old one or one of a higher epoch. */
  lemma LatestAdvances(stream: Stream, before: seq<CatalogRecord>, after: seq<CatalogRecord>, i: int, j: int,
    segment: string)
    requires before <= after && IsLatest(stream, before, i, segment) && IsLatest(stream, after, j, segment)
    ensures Commits(stream, after, i, segment) && (i == j || EpochAt(after, i) < EpochAt(after, j))
  {
    CommitStays(stream, before, after, i, segment);
    if EpochAt(after, i) == EpochAt(after, j) {
      CommitStays(stream, before, after, j, segment);
    }
  }

  lemma CommitAdvances(stream: Stream, log: Agreement.Log, a: Catalogs, b: Catalogs, p: Index.Prefix,
    pb: seq<Index.Prefix>)
    returns (n: nat)
    requires Grow(a, b) && Honest(stream, log, b) && IsListed(stream, a, p) && Lists(stream, b, pb)
    ensures n < |pb| && pb[n].segment == p.segment && p.offset <= pb[n].offset
  {
    var i :| IsLatest(stream, a[p.process], i, p.segment) && PrefixAt(stream, a, p.process, i, p.segment) == p;
    CommitStays(stream, a[p.process], b[p.process], i, p.segment);
    assert CommitsIn(stream, b, p.process, i, p.segment) && Names(pb, p.process, p.segment);
    n :| 0 <= n < |pb| && pb[n].process == p.process && pb[n].segment == p.segment;
    OffsetAdvances(stream, log, a, b, p, pb[n], i);
  }

  lemma OffsetAdvances(stream: Stream, log: Agreement.Log, a: Catalogs, b: Catalogs, p: Index.Prefix, q: Index.Prefix,
    i: int)
    requires Honest(stream, log, b) && p.process in a && p.process in b && a[p.process] <= b[p.process]
    requires IsLatest(stream, a[p.process], i, p.segment) && PrefixAt(stream, a, p.process, i, p.segment) == p
    requires q.process == p.process && q.segment == p.segment && IsListed(stream, b, q)
    ensures p.offset <= q.offset
  {
    var j :| IsLatest(stream, b[p.process], j, p.segment) && PrefixAt(stream, b, p.process, j, p.segment) == q;
    LatestAdvances(stream, a[p.process], b[p.process], i, j, p.segment);
    assert CommitsIn(stream, b, p.process, i, p.segment) && CommitsIn(stream, b, p.process, j, p.segment);
    assert PrefixAt(stream, b, p.process, i, p.segment) == p;
  }

  /** As honest catalogs grow, no listed segment disappears and no listed commit goes back. */
  lemma GrowthAdvances(stream: Stream, log: Agreement.Log, a: Catalogs, b: Catalogs, pa: seq<Index.Prefix>,
    pb: seq<Index.Prefix>)
    requires Grow(a, b) && Honest(stream, log, b) && Lists(stream, a, pa) && Lists(stream, b, pb)
    ensures Agreement.CommitsAdvance(pa, pb)
  {
    forall m | 0 <= m < |pa| ensures Agreement.IsReached(pb, pa[m]) {
      var n := CommitAdvances(stream, log, a, b, pa[m], pb);
    }
  }

  /** The prefixes of a world are listed from the catalogs. */
  ghost predicate IsListedFrom(catalogs: Catalogs, w: Agreement.World) {
    Lists(Events, catalogs, w.events.prefixes) && Lists(Payloads, catalogs, w.payloads.prefixes)
  }

  /** Appending to segments and to honest catalogs is a step of the runs for which the index agrees with the log. */
  lemma CatalogGrowthIsAStep(digest: Digest<Index.Item>, a: Agreement.World, b: Agreement.World, before: Catalogs,
    after: Catalogs)
    requires IsListedFrom(before, a) && IsListedFrom(after, b) && Grow(before, after)
    requires Honest(Events, b.events.log, after) && Honest(Payloads, b.payloads.log, after)
    requires Agreement.Extends(a.events.log, b.events.log) && Agreement.Extends(a.payloads.log, b.payloads.log)
    requires Agreement.IsLog(digest, b.events.log) && Agreement.IsLog(digest, b.payloads.log)
    requires b.events.rows == a.events.rows && b.events.cursors == a.events.cursors
    requires b.payloads.rows == a.payloads.rows && b.payloads.cursors == a.payloads.cursors
    ensures Agreement.Next(digest, a, b)
  {
    ListedAreCommits(Events, b.events.log, after, b.events.prefixes);
    ListedAreCommits(Payloads, b.payloads.log, after, b.payloads.prefixes);
    GrowthAdvances(Events, b.events.log, before, after, a.events.prefixes, b.events.prefixes);
    GrowthAdvances(Payloads, b.payloads.log, before, after, a.payloads.prefixes, b.payloads.prefixes);
  }
}

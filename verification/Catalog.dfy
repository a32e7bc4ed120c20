/** The process catalog: appends, segment rotation, committed prefixes and recovery after a failed append. */
module Catalog {
  import opened Integrity
  import opened Reader
  import opened ReadBack
  import opened Wrappers

  /**
   * What became of an append: it raised (and its line landed, or part of it, cut inside a character
   * or not, or nothing) or it did not.
   */
  datatype Outcome = Done | NothingWritten | PartWritten | CutInCharacter | WholeWritten

  /** What a failed append leaves in the file. */
  function Left(outcome: Outcome, record: CatalogRecord): seq<Line> {
    match outcome
    case Done => []
    case NothingWritten => []
    case PartWritten => [Unreadable]
    case CutInCharacter => [Undecodable]
    case WholeWritten => [Readable(record)]
  }

  datatype Result = Written | Uncertain | UnsafePath | NotCreated

  /** The commit of the last `epoch_committed` record. */
  function LastCommit(records: seq<CatalogRecord>): Option<EpochCommit> {
    if records == [] then None
    else
      var kind := records[|records| - 1].payload.body.kind;
      if kind.EpochCommitted? then Some(kind.commit) else LastCommit(records[..|records| - 1])
  }

  /** Within a segment the sequence numbers run 1, 2, 3, ...; every change of segment starts again at 1. */
  ghost predicate IsNumbered(records: seq<CatalogRecord>) {
    records == []
    || (IsNumbered(records[..|records| - 1]) && records[|records| - 1].payload.sequence == Some(LastNumber(records)))
  }

  /** The number that is due to the last record. */
  function LastNumber(records: seq<CatalogRecord>): nat
    requires records != []
    decreases |records|, 0
  {
    Count(records[..|records| - 1], records[|records| - 1].payload.body.segment) + 1
  }

  /** How many records the current segment holds. */
  function Count(records: seq<CatalogRecord>, segment: string): nat
    decreases |records|, 1
  {
    if records != [] && records[|records| - 1].payload.body.segment == segment then LastNumber(records) else 0
  }

  /** What holds of the fields of a catalog whose files hold `lines`. */
  ghost predicate Fits(digest: Digest<Body>, closed: bool, segment: string, sequence: nat,
    previousHash: Option<string>, records: seq<CatalogRecord>, lines: seq<Line>, strays: seq<Line>)
  {
    && Holds(digest, lines, records, strays) && previousHash == Some(records[|records| - 1].hash)
    && IsNumbered(records) && (closed || sequence == Count(records, segment))
  }

  ghost predicate Consistent(digest: Digest<Body>, closed: bool, segment: string, sequence: nat,
    previousHash: Option<string>, records: seq<CatalogRecord>, files: seq<seq<Line>>, strays: seq<Line>)
  {
    files != [] && Fits(digest, closed, segment, sequence, previousHash, records, Concat(files), strays)
  }

  /** The record an append builds. */
  function NextRecord(digest: Digest<Body>, segment: string, sequence: nat, previousHash: Option<string>, kind: Kind,
    id: string): CatalogRecord
  {
    var payload := Payload(Body(kind, id, segment), Some(sequence + 1), previousHash);
    CatalogRecord(payload, digest(payload))
  }

  /** The last file grown by some lines. */
  function Grown(files: seq<seq<Line>>, more: seq<Line>): seq<seq<Line>>
    requires files != []
  {
    files[..|files| - 1] + [files[|files| - 1] + more]
  }

  /** The record `create` appends. */
  function FirstRecord(digest: Digest<Body>, segment: string, id: string): CatalogRecord {
    var payload := Payload(Body(ProcessStarted, id, segment), Some(1), None);
    CatalogRecord(payload, digest(payload))
  }

  lemma StartIsConsistent(digest: Digest<Body>, segment: string, id: string)
    ensures var r := FirstRecord(digest, segment, id);
            Consistent(digest, false, segment, 1, Some(r.hash), [r], [[Readable(r)]], []) && LastCommit([r]) == None
  {
    var r := FirstRecord(digest, segment, id);
    FirstHolds(digest, segment, id);
    FirstIsNumbered(r);
    assert [[Readable(r)]][..0] == [] && Concat([[Readable(r)]]) == [Readable(r)];
  }

  lemma FirstHolds(digest: Digest<Body>, segment: string, id: string)
    ensures var r := FirstRecord(digest, segment, id); Holds(digest, [Readable(r)], [r], [])
  {
    var r := FirstRecord(digest, segment, id);
    assert AsLines([r]) == [Readable(r)];
  }

  lemma FirstIsNumbered(r: CatalogRecord)
    requires r.payload.sequence == Some(1) && r.payload.body.kind.ProcessStarted?
    ensures IsNumbered([r]) && Count([r], r.payload.body.segment) == 1 && LastCommit([r]) == None
  {
    assert [r][..0] == [];
  }

  lemma AppendFits(digest: Digest<Body>, segment: string, sequence: nat, previousHash: Option<string>,
    records: seq<CatalogRecord>, lines: seq<Line>, strays: seq<Line>, kind: Kind, id: string)
    requires Fits(digest, false, segment, sequence, previousHash, records, lines, strays)
    ensures var r := NextRecord(digest, segment, sequence, previousHash, kind, id);
            Fits(digest, false, segment, sequence + 1, Some(r.hash), records + [r], lines + [Readable(r)], strays)
  {
    var r := NextRecord(digest, segment, sequence, previousHash, kind, id);
    HoldsStep(digest, lines, records, strays, r);
    NumberedStep(records, r);
  }

  lemma AppendKeeps(digest: Digest<Body>, segment: string, sequence: nat, previousHash: Option<string>,
    records: seq<CatalogRecord>, files: seq<seq<Line>>, strays: seq<Line>, kind: Kind, id: string)
    requires Consistent(digest, false, segment, sequence, previousHash, records, files, strays)
    ensures var r := NextRecord(digest, segment, sequence, previousHash, kind, id);
            Consistent(digest, false, segment, sequence + 1, Some(r.hash), records + [r], Grown(files, [Readable(r)]),
              strays)
  {
    ConcatLast(files, [Readable(NextRecord(digest, segment, sequence, previousHash, kind, id))]);
    AppendFits(digest, segment, sequence, previousHash, records, Concat(files), strays, kind, id);
  }

  lemma StrayFits(digest: Digest<Body>, closed: bool, segment: string, sequence: nat, previousHash: Option<string>,
    records: seq<CatalogRecord>, lines: seq<Line>, strays: seq<Line>, kind: Kind, id: string, outcome: Outcome)
    requires Fits(digest, closed, segment, sequence, previousHash, records, lines, strays)
    ensures var left := Left(outcome, NextRecord(digest, segment, sequence, previousHash, kind, id));
            Fits(digest, true, segment, sequence, previousHash, records, lines + left, strays + left)
  {
    HoldsStray(digest, lines, records, strays,
      Left(outcome, NextRecord(digest, segment, sequence, previousHash, kind, id)));
  }

  lemma StrayKeeps(digest: Digest<Body>, closed: bool, segment: string, sequence: nat, previousHash: Option<string>,
    records: seq<CatalogRecord>, files: seq<seq<Line>>, strays: seq<Line>, kind: Kind, id: string, outcome: Outcome)
    requires Consistent(digest, closed, segment, sequence, previousHash, records, files, strays)
    ensures var left := Left(outcome, NextRecord(digest, segment, sequence, previousHash, kind, id));
            Consistent(digest, true, segment, sequence, previousHash, records, Grown(files, left), strays + left)
  {
    ConcatLast(files, Left(outcome, NextRecord(digest, segment, sequence, previousHash, kind, id)));
    StrayFits(digest, closed, segment, sequence, previousHash, records, Concat(files), strays, kind, id, outcome);
  }

  /** Nothing is claimed of the numbers of a closed segment. */
  lemma CloseKeeps(digest: Digest<Body>, closed: bool, segment: string, sequence: nat, previousHash: Option<string>,
    records: seq<CatalogRecord>, files: seq<seq<Line>>, strays: seq<Line>, newId: string)
    requires Consistent(digest, closed, segment, sequence, previousHash, records, files, strays)
    ensures Consistent(digest, true, newId, sequence, previousHash, records, files, strays)
  {
  }

  lemma OpenKeeps(digest: Digest<Body>, closed: bool, segment: string, sequence: nat, previousHash: Option<string>,
    records: seq<CatalogRecord>, files: seq<seq<Line>>, strays: seq<Line>, newId: string)
    requires Consistent(digest, closed, segment, sequence, previousHash, records, files, strays)
    requires forall r :: r in records ==> r.payload.body.segment != newId
    ensures Consistent(digest, false, newId, 0, previousHash, records, files + [[]], strays)
  {
    ConcatNewFile(files);
    assert records[|records| - 1] in records;
  }

  class ProcessCatalog {
    const digest: Digest<Body>
    const safePath: string -> bool
    var segment: string
    var sequence: nat
    var previousHash: Option<string>
    var records: seq<CatalogRecord>
    var prefix: Option<EpochCommit>
    /** The catalog files of the process, the current segment's last. */
    var files: seq<seq<Line>>
    var closed: bool
    /** The lines that failed appends left behind. */
    ghost var strays: seq<Line>

    ghost predicate Valid()
      reads this
    {
      && Consistent(digest, closed, segment, sequence, previousHash, records, files, strays)
      && prefix == LastCommit(records)
    }

    /** `create`, whose first append succeeds. */
    constructor (digest: Digest<Body>, safePath: string -> bool, segment: string, id: string)
      ensures Valid() && strays == [] && |records| == 1 && prefix == None && !closed
      ensures this.digest == digest && this.safePath == safePath && this.segment == segment
      ensures records[0].payload.body == Body(ProcessStarted, id, segment)
    {
      var record := FirstRecord(digest, segment, id);
      this.digest, this.safePath, this.segment, sequence := digest, safePath, segment, 1;
      previousHash, records, prefix := Some(record.hash), [record], None;
      files, closed, strays := [[Readable(record)]], false, [];
      new;
      StartIsConsistent(digest, segment, id);
    }

    function Next(kind: Kind, id: string): CatalogRecord
      reads this
    {
      NextRecord(digest, segment, sequence, previousHash, kind, id)
    }

    /**
     * `_append`: on success the record is the next of the chain; an append that raises changes no
     * field, closes the segment, and may still have left its line in the file.
     */
    method Append(kind: Kind, id: string, outcome: Outcome) returns (result: Result)
      requires Valid() && !kind.EpochCommitted?
      modifies this
      ensures Valid() && segment == old(segment) && prefix == old(prefix)
      ensures result == if !old(closed) && outcome.Done? then Written else Uncertain
      ensures result.Written? ==>
                && records == old(records) + [old(Next(kind, id))] && strays == old(strays)
                && sequence == old(sequence) + 1 && !closed
      ensures result.Uncertain? ==>
                && closed && records == old(records) && sequence == old(sequence)
                && strays == old(strays) + if old(closed) then [] else Left(outcome, old(Next(kind, id)))
      ensures |files| == |old(files)|
    {
      result := AppendAny(kind, id, outcome);
      LastCommitStep(old(records), old(Next(kind, id)));
    }

    /** Every field of the new state, the committed prefix aside. */
    method AppendAny(kind: Kind, id: string, outcome: Outcome) returns (result: Result)
      requires Valid()
      modifies this
      ensures segment == old(segment) && prefix == old(prefix)
      ensures result == if !old(closed) && outcome.Done? then Written else Uncertain
      ensures result.Written? ==>
                && records == old(records) + [old(Next(kind, id))] && strays == old(strays)
                && sequence == old(sequence) + 1 && !closed
      ensures result.Uncertain? ==>
                && closed && records == old(records) && sequence == old(sequence)
                && strays == old(strays) + if old(closed) then [] else Left(outcome, old(Next(kind, id)))
      ensures |files| == |old(files)|
      ensures Consistent(digest, closed, segment, sequence, previousHash, records, files, strays)
    {
      if closed {
        return Uncertain;
      }
      if outcome.Done? {
        Land(kind, id);
        return Written;
      }
      LeaveStray(kind, id, outcome);
      return Uncertain;
    }

    /** The line is in the file and on disk. */
    method Land(kind: Kind, id: string)
      requires Consistent(digest, closed, segment, sequence, previousHash, records, files, strays) && !closed
      modifies this`files, this`sequence, this`previousHash, this`records
      ensures Consistent(digest, closed, segment, sequence, previousHash, records, files, strays)
      ensures records == old(records) + [old(Next(kind, id))] && sequence == old(sequence) + 1
      ensures |files| == |old(files)|
    {
      var record := Next(kind, id);
      AppendKeeps(digest, segment, sequence, previousHash, records, files, strays, kind, id);
      files := Grown(files, [Readable(record)]);
      sequence, previousHash, records := sequence + 1, Some(record.hash), records + [record];
    }

    /** Writing or syncing raised: the segment is closed, whatever is in the file stays there. */
    method LeaveStray(kind: Kind, id: string, outcome: Outcome)
      requires Consistent(digest, closed, segment, sequence, previousHash, records, files, strays)
      modifies this`files, this`closed, this`strays
      ensures Consistent(digest, closed, segment, sequence, previousHash, records, files, strays) && closed
      ensures strays == old(strays) + Left(outcome, Next(kind, id)) && |files| == |old(files)|
    {
      StrayKeeps(digest, closed, segment, sequence, previousHash, records, files, strays, kind, id, outcome);
      files := Grown(files, Left(outcome, Next(kind, id)));
      closed, strays := true, strays + Left(outcome, Next(kind, id));
    }

    /** `register_segment`: an unsafe path token raises before anything is written. */
    method RegisterSegment(kind: Kind, id: string, outcome: Outcome) returns (result: Result)
      requires Valid() && kind.SegmentRegistered?
      modifies this
      ensures Valid() && segment == old(segment) && prefix == old(prefix)
      ensures !result.NotCreated? && (result.UnsafePath? <==> !safePath(kind.path))
      ensures result.UnsafePath? ==>
                && records == old(records) && strays == old(strays) && closed == old(closed)
                && sequence == old(sequence) && files == old(files)
      ensures result.Written? <==> safePath(kind.path) && !old(closed) && outcome.Done?
      ensures result.Written? ==>
                records == old(records) + [old(Next(kind, id))] && strays == old(strays) && !closed
      ensures result.Uncertain? ==>
                && closed && records == old(records)
                && strays == old(strays) + if old(closed) then [] else Left(outcome, old(Next(kind, id)))
      ensures |files| == |old(files)|
    {
      if !safePath(kind.path) {
        return UnsafePath;
      }
      result := Append(kind, id, outcome);
    }

    /**
     * Starting the next catalog segment; its id is a fresh one. The segment before it is closed
     * first, and the id changes before the new file is created, which may raise.
     */
    method OpenSegment(newId: string, created: bool)
      requires Valid() && newId != segment && forall r :: r in records ==> r.payload.body.segment != newId
      modifies this
      ensures Valid() && segment == newId && closed == !created && sequence == if created then 0 else old(sequence)
      ensures records == old(records) && strays == old(strays) && prefix == old(prefix)
      ensures previousHash == old(previousHash) && files == old(files) + if created then [[]] else []
    {
      if created {
        OpenKeeps(digest, closed, segment, sequence, previousHash, records, files, strays, newId);
        sequence, closed, files := 0, false, files + [[]];
      } else {
        CloseKeeps(digest, closed, segment, sequence, previousHash, records, files, strays, newId);
        closed := true;
      }
      segment := newId;
    }

    /**
     * `rotate_catalog_segment`: the first record of the new segment names the last record of the old
     * one, so the chain of records goes on across the files while its numbers start again.
     */
    method RotateSegment(newId: string, path: string, id: string, created: bool, outcome: Outcome)
      returns (result: Result)
      requires Valid() && newId != segment && forall r :: r in records ==> r.payload.body.segment != newId
      modifies this
      ensures Valid() && segment == newId && prefix == old(prefix)
      ensures result.NotCreated? <==> !created
      ensures result.NotCreated? ==> closed && sequence == old(sequence) && strays == old(strays) && files == old(files)
      ensures old(strays) <= strays && (result.Written? ==> !closed)
      ensures created ==> |files| == |old(files)| + 1
      ensures result.Written? <==> created && safePath(path) && outcome.Done?
      ensures result.Written? ==>
                && strays == old(strays) && |records| == |old(records)| + 1 && old(records) <= records && sequence == 1
                && var r := records[|old(records)|];
                   && r.payload.previous == old(previousHash) && r.payload.sequence == Some(1)
                   && r.payload.body.id == id && r.payload.body.segment == newId
                   && r.payload.body.kind
                      == Registration(newId, path, Some(old(segment)), old(previousHash), old(sequence))
      ensures !result.Written? ==> records == old(records)
    {
      var kind := Registration(newId, path, Some(segment), previousHash, sequence);
      OpenSegment(newId, created);
      if !created {
        return NotCreated;
      }
      label Opened:
      result := RegisterSegment(kind, id, outcome);
      assert result.Written? ==> records == old(records) + [old@Opened(Next(kind, id))];
    }

    function Registration(newId: string, path: string, previous: Option<string>, hash: Option<string>,
      count: nat): Kind
    {
      SegmentRegistered(['c'], newId, path, previous, hash, Some(count))
    }

    /**
     * `recover_after_uncertain`: a new segment is registered behind the last record known to be
     * written, and the segment whose append failed is declared abandoned.
     */
    method RecoverAfterUncertain(newId: string, path: string, ids: (string, string), reason: string, created: bool,
      outcomes: (Outcome, Outcome)) returns (result: Result)
      requires Valid() && newId != segment && forall r :: r in records ==> r.payload.body.segment != newId
      modifies this
      ensures Valid() && prefix == old(prefix) && segment == newId
      ensures old(records) <= records && old(strays) <= strays
      ensures result.NotCreated? <==> !created
      ensures result.NotCreated? ==>
                && closed && sequence == old(sequence) && files == old(files)
                && records == old(records) && strays == old(strays)
      ensures result.Written? <==> created && safePath(path) && outcomes.0.Done? && outcomes.1.Done?
      ensures result.Written? ==>
                && |records| == |old(records)| + 2 && strays == old(strays)
                && records[|old(records)|].payload.previous == old(previousHash)
                && records[|old(records)| + 1].payload.body.kind
                   == SegmentAbandoned(['c'], old(segment), 0, old(previousHash), reason)
    {
      var abandoned, hash := segment, previousHash;
      result := RotateSegment(newId, path, ids.0, created, outcomes.0);
      if result.Written? {
        result := Append(SegmentAbandoned(['c'], abandoned, 0, hash, reason), ids.1, outcomes.1);
      }
    }

    /** `commit_epoch`: the committed prefix moves only when its record is written. */
    method CommitEpoch(commit: EpochCommit, id: string, outcome: Outcome) returns (result: Result)
      requires Valid()
      modifies this
      ensures Valid() && segment == old(segment)
      ensures result == if !old(closed) && outcome.Done? then Written else Uncertain
      ensures result.Written? ==>
                && prefix == Some(commit) && strays == old(strays)
                && records == old(records) + [old(Next(EpochCommitted(commit), id))]
      ensures result.Uncertain? ==>
                && prefix == old(prefix) && records == old(records) && closed
                && strays == old(strays)
                   + if old(closed) then [] else Left(outcome, old(Next(EpochCommitted(commit), id)))
    {
      result := AppendAny(EpochCommitted(commit), id, outcome);
      LastCommitStep(old(records), old(Next(EpochCommitted(commit), id)));
      if result.Written? {
        prefix := Some(commit);
      }
    }

    /** `close_process` names the last committed epoch and the heads of its two chains. */
    method CloseProcess(reason: string, id: string, outcome: Outcome) returns (result: Result)
      requires Valid()
      modifies this
      ensures Valid() && prefix == old(prefix)
      ensures result.Written? <==> !old(closed) && outcome.Done?
      ensures result.Written? ==>
                && strays == old(strays) && |records| == |old(records)| + 1 && old(records) <= records
                && match LastCommit(old(records))
                   case None => records[|old(records)|].payload.body.kind == ProcessClosed(0, reason, None, None)
                   case Some(c) => records[|old(records)|].payload.body.kind
                                   == ProcessClosed(c.epoch, reason, Some(c.eventHash), c.payloadHash)
    {
      var kind := match prefix
        case None => ProcessClosed(0, reason, None, None)
        case Some(c) => ProcessClosed(c.epoch, reason, Some(c.eventHash), c.payloadHash);
      result := Append(kind, id, outcome);
    }
  }

  /**
   * After any run of the operations above, reading the files in any order gives exactly the
   * records with no diagnostic if and only if no failed append left a line behind, that is, if and
   * only if the files have as many lines as there are records.
   */
  lemma WriterReaderRoundTrip(catalog: ProcessCatalog, visited: seq<seq<Line>>, read: Read)
    requires catalog.Valid() && Injective(catalog.digest)
    requires multiset(visited) == multiset(catalog.files)
    requires IsRead(catalog.digest, Concat(visited), read)
    ensures read == Read(catalog.records, []) <==> catalog.strays == []
    ensures read == Read(catalog.records, []) <==> |Concat(catalog.files)| == |catalog.records|
  {
    ConcatPermutes(visited, catalog.files);
    ReadsBackUnlessStrays(catalog.digest, Concat(visited), catalog.records, catalog.strays, read);
    StraysAreExtraLines(catalog.digest, Concat(catalog.files), catalog.records, catalog.strays);
  }

  /**
   * Whatever failed appends left, a read that does not raise gives the first of the written records
   * in order, and behind all of them at most one that an append reported as failed.
   */
  lemma LeftoversOnlyCutTheRead(catalog: ProcessCatalog, visited: seq<seq<Line>>, read: Read)
    requires catalog.Valid() && Injective(catalog.digest)
    requires multiset(visited) == multiset(catalog.files)
    requires IsRead(catalog.digest, Concat(visited), read)
    ensures read.Raised? <==> Undecodable in catalog.strays
    ensures read.Read? ==> read.ordered != [] && IsUpToFork(catalog.records, catalog.strays, read.ordered)
  {
    ConcatPermutes(visited, catalog.files);
    assert Undecodable in Concat(visited) <==> Undecodable in multiset(Concat(visited));
    assert Undecodable !in AsLines(catalog.records);
    if read.Read? {
      ReadsUpToFork(catalog.digest, Concat(visited), catalog.records, catalog.strays, read.ordered, read.diagnostics);
    }
  }

  /** A new catalog, an append that raises although its line is in the file, and a recovery. */
  method RecoverFromWrittenCommit(digest: Digest<Body>, commit: EpochCommit, reason: string)
    returns (catalog: ProcessCatalog, ghost stray: CatalogRecord)
    ensures catalog.Valid() && catalog.digest == digest && |catalog.records| == 3 && catalog.strays == [Readable(stray)]
    ensures stray.hash == digest(stray.payload) && stray.payload.previous == Some(catalog.records[0].hash)
  {
    catalog := new ProcessCatalog(digest, path => true, "s", "a");
    ghost var first := catalog.records;
    stray := catalog.Next(EpochCommitted(commit), "b");
    NextFollowsLast(catalog, EpochCommitted(commit), "b");
    var committed := catalog.CommitEpoch(commit, "b", WholeWritten);
    assert catalog.records == first && catalog.strays == [Readable(stray)];
    var recovered := catalog.RecoverAfterUncertain("t", "t", ("c", "d"), reason, true, (Done, Done));
    assert catalog.records[0] == first[0];
  }

  /** Of the three records written then, a read returns the first alone and reports a fork. */
  method RecoveryForks(digest: Digest<Body>, commit: EpochCommit, reason: string)
    returns (records: seq<CatalogRecord>, read: Read)
    requires Injective(digest)
    ensures |records| == 3 && read.Read? && read.ordered == records[..1] && CatalogFork in read.diagnostics
  {
    var catalog, stray := RecoverFromWrittenCommit(digest, commit, reason);
    records := catalog.records;
    read := ReadCatalog(digest, catalog.files);
    LeftoversOnlyCutTheRead(catalog, catalog.files, read);
    StrayCutsAtFirst(digest, Concat(catalog.files), records, catalog.strays, stray, read);
  }

  lemma NextFollowsLast(catalog: ProcessCatalog, kind: Kind, id: string)
    requires catalog.Valid()
    ensures var next := catalog.Next(kind, id);
            && catalog.records != [] && next.hash == catalog.digest(next.payload)
            && next.payload.previous == Some(catalog.records[|catalog.records| - 1].hash)
  {
  }

  /** A stray behind the first of several records cuts the read there. */
  lemma StrayCutsAtFirst(digest: Digest<Body>, lines: seq<Line>, records: seq<CatalogRecord>, strays: seq<Line>,
    stray: CatalogRecord, read: Read)
    requires Injective(digest) && Holds(digest, lines, records, strays) && |records| > 1
    requires IsRead(digest, lines, read) && read.Read? && read.ordered != []
             && IsUpToFork(records, strays, read.ordered)
    requires Readable(stray) in strays && stray.hash == digest(stray.payload)
    requires stray.payload.previous == Some(records[0].hash)
    ensures read.ordered == records[..1] && CatalogFork in read.diagnostics
  {
    StrayCompetes(digest, lines, records, strays, stray, 0);
    ForkCutsTheRead(digest, lines, records, strays, read);
  }

  lemma ForkCutsTheRead(digest: Digest<Body>, lines: seq<Line>, records: seq<CatalogRecord>, strays: seq<Line>,
    read: Read)
    requires IsRead(digest, lines, read) && read.Read? && read.ordered != []
    requires records != [] && IsUpToFork(records, strays, read.ordered)
    requires |Candidates(Trusted(digest, lines), records[..1])| > 1
    ensures read.ordered == records[..1] && CatalogFork in read.diagnostics
  {
    var found := Trusted(digest, lines);
    assert read.ordered[..1] == records[..1];
    WalkGoesOnUniquely(found, read.ordered);
    assert read.ordered[..1] == read.ordered;
    assert CatalogFork in ChainProblems(found, read.ordered);
  }

  lemma WalkGoesOnUniquely(found: seq<CatalogRecord>, ordered: seq<CatalogRecord>)
    requires IsWalk(found, ordered)
    ensures |ordered| > 1 ==> |Candidates(found, ordered[..1])| == 1
  {
    assert |ordered| > 1 ==> Candidates(found, ordered[..1]) == [ordered[1]];
  }

  lemma ConcatLast(files: seq<seq<Line>>, more: seq<Line>)
    requires files != []
    ensures Concat(Grown(files, more)) == Concat(files) + more
  {
    var n := |files| - 1;
    assert Grown(files, more)[..n] == files[..n];
  }

  lemma ConcatNewFile(files: seq<seq<Line>>)
    ensures Concat(files + [[]]) == Concat(files)
  {
    assert (files + [[]])[..|files|] == files;
  }

  lemma HoldsStep(digest: Digest<Body>, lines: seq<Line>, records: seq<CatalogRecord>, strays: seq<Line>,
    r: CatalogRecord)
    requires Holds(digest, lines, records, strays) && r.hash == digest(r.payload)
    requires r.payload.previous == Some(records[|records| - 1].hash)
    ensures Holds(digest, lines + [Readable(r)], records + [r], strays)
  {
    assert AsLines(records + [r]) == AsLines(records) + [Readable(r)];
    assert multiset(lines + [Readable(r)]) == multiset(AsLines(records + [r])) + multiset(strays);
    forall s | s in strays && s.Readable? ensures IsStray(digest, records + [r], s.record) {
      StrayStays(digest, records, r, s.record);
    }
    CatalogStep(digest, records, r);
  }

  lemma StrayStays(digest: Digest<Body>, records: seq<CatalogRecord>, r: CatalogRecord, stray: CatalogRecord)
    requires IsStray(digest, records, stray)
    ensures IsStray(digest, records + [r], stray)
  {
    var k :| 0 <= k < |records| && stray.payload.previous == Some(records[k].hash);
    assert (records + [r])[k] == records[k];
  }

  lemma CatalogStep(digest: Digest<Body>, records: seq<CatalogRecord>, r: CatalogRecord)
    requires IsCatalog(digest, records) && r.hash == digest(r.payload)
    requires r.payload.previous == Some(records[|records| - 1].hash)
    ensures IsCatalog(digest, records + [r])
  {
  }

  lemma HoldsStray(digest: Digest<Body>, lines: seq<Line>, records: seq<CatalogRecord>, strays: seq<Line>,
    left: seq<Line>)
    requires Holds(digest, lines, records, strays)
    requires forall s :: s in left && s.Readable? ==> s.record.hash == digest(s.record.payload)
    requires forall s :: s in left && s.Readable? ==> s.record.payload.previous == Some(records[|records| - 1].hash)
    ensures Holds(digest, lines + left, records, strays + left)
  {
    forall s | s in left && s.Readable? ensures IsStray(digest, records, s.record) {
      assert s.record.payload.previous == Some(records[|records| - 1].hash);
    }
  }

  lemma NumberedStep(records: seq<CatalogRecord>, r: CatalogRecord)
    requires IsNumbered(records) && r.payload.sequence == Some(Count(records, r.payload.body.segment) + 1)
    ensures IsNumbered(records + [r]) && Count(records + [r], r.payload.body.segment) == r.payload.sequence.value
  {
    assert (records + [r])[..|records|] == records;
  }

  lemma LastCommitStep(records: seq<CatalogRecord>, r: CatalogRecord)
    ensures LastCommit(records + [r]) ==
            if r.payload.body.kind.EpochCommitted? then Some(r.payload.body.kind.commit) else LastCommit(records)
  {
    assert (records + [r])[..|records|] == records;
  }

  lemma {:induction false} ConcatPermutes(a: seq<seq<Line>>, b: seq<seq<Line>>)
    requires multiset(a) == multiset(b)
    ensures multiset(Concat(a)) == multiset(Concat(b))
    decreases |a|
  {
    assert |multiset(a)| == |a| && |multiset(b)| == |b|;
    if a != [] {
      var n := |a| - 1;
      assert a == a[..n] + [a[n]];
      assert a[n] in multiset(b);
      var i :| 0 <= i < |b| && b[i] == a[n];
      ConcatPull(b, i);
      WithoutOne(b, i);
      assert multiset(a[..n]) == multiset(a) - multiset{a[n]};
      ConcatPermutes(a[..n], b[..i] + b[i + 1..]);
    }
  }

  lemma ConcatCounts(parts: seq<seq<Line>>, part: seq<Line>)
    ensures multiset(Concat(parts + [part])) == multiset(Concat(parts)) + multiset(part)
  {
    ConcatStep(parts, part);
  }

  lemma WithoutOne<T>(b: seq<T>, i: nat)
    requires i < |b|
    ensures multiset(b[..i] + b[i + 1..]) == multiset(b) - multiset{b[i]}
  {
    assert b == b[..i] + [b[i]] + b[i + 1..];
  }

  lemma {:induction false} ConcatPull(b: seq<seq<Line>>, i: nat)
    requires i < |b|
    ensures multiset(Concat(b)) == multiset(Concat(b[..i] + b[i + 1..])) + multiset(b[i])
  {
    var n := |b| - 1;
    if i == n {
      assert b[..i] + b[i + 1..] == b[..n];
    } else {
      ConcatPull(b[..n], i);
      var rest := b[..n][..i] + b[..n][i + 1..];
      assert b[..i] + b[i + 1..] == rest + [b[n]] && b == b[..n] + [b[n]];
      ConcatCounts(rest, b[n]);
      ConcatCounts(b[..n], b[n]);
    }
  }
}
